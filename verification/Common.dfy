// Shared vocabulary of the models.
module Common {
  datatype Option<+T> = None | Some(value: T)

  // PostgreSQL row-lock modes and their conflict table (section 13.3.2 of the
  // PostgreSQL documentation, "Row-Level Locks").
  datatype LockMode = KeyShare | Share | NoKeyUpdate | Update

  predicate Conflicts(a: LockMode, b: LockMode) {
    match a
    case KeyShare => b == Update
    case Share => b == NoKeyUpdate || b == Update
    case NoKeyUpdate => b != KeyShare
    case Update => true
  }

  lemma SubsetSize<T>(a: set<T>, b: set<T>)
    requires a <= b
    ensures |a| <= |b|
  {
    assert b == a + (b - a);
  }
}
