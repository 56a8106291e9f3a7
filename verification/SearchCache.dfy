/**
 The snapshot and index caches behind the searches of ui-ux-pro-max/scripts/core.py,
 over files that may be rewritten at any moment.  The row filter of a search is named
 in the key of its index only by the text of its variant.
 */
module SearchCache {
  import opened Common
  import opened Bm25

  type Path = string
  type Column = string
  type Row = map<Column, string>

  const INDEX_VERSION := 2
  const ATTEMPTS := 3

  // ----- row filters and their variants -----

  datatype Generation = LegacyOnly | CurrentOnly | NonLegacy

  datatype Base = BaseUi | ReactAria | Radix

  datatype Filter =
    | Whole
    | ActiveStyles
    | LegacyUnavailable
    | Stack(generation: Generation, base: Option<Base>)

  function BaseName(base: Base): string {
    match base
    case BaseUi => "base"
    case ReactAria => "aria"
    case Radix => "radix"
  }

  function GenerationName(g: Generation): string {
    match g
    case LegacyOnly => "legacy-only"
    case CurrentOnly => "current-only"
    case NonLegacy => "non-legacy"
  }

  function Variant(filter: Filter): string {
    match filter
    case Whole => ""
    case ActiveStyles => "active-only"
    case LegacyUnavailable => "legacy-unavailable"
    case Stack(g, None) => GenerationName(g)
    case Stack(g, Some(base)) => GenerationName(g) + ";base=" + BaseName(base)
  }

  function ReadBase(suffix: string): Option<Base> {
    if suffix == "" then None
    else if suffix[|suffix| - 1] == 'e' then Some(BaseUi)
    else if suffix[|suffix| - 1] == 'a' then Some(ReactAria)
    else Some(Radix)
  }

  function ReadVariant(variant: string): Filter {
    if variant == "" then Whole
    else if variant[0] == 'a' then ActiveStyles
    else if variant[0] == 'c' then (if |variant| < 12 then Whole else Stack(CurrentOnly, ReadBase(variant[12..])))
    else if variant[0] == 'n' then (if |variant| < 10 then Whole else Stack(NonLegacy, ReadBase(variant[10..])))
    else if |variant| < 11 then Whole
    else if variant[7] == 'u' then LegacyUnavailable
    else Stack(LegacyOnly, ReadBase(variant[11..]))
  }

  lemma ReadSuffix(base: Option<Base>)
    ensures ReadBase(if base.Some? then ";base=" + BaseName(base.value) else "") == base
  {
    if base.Some? {
      var name := BaseName(base.value);
      var suffix := ";base=" + name;
      assert suffix[|suffix| - 1] == name[|name| - 1];
    }
  }

  lemma ReadStack(g: Generation, suffix: string)
    ensures ReadVariant(GenerationName(g) + suffix) == Stack(g, ReadBase(suffix))
  {
    hide ReadBase;
    var name := GenerationName(g);
    var variant := name + suffix;
    assert variant[|name|..] == suffix && variant[0] == name[0] && variant[7] == name[7];
  }

  lemma ReadPlain(filter: Filter)
    requires !filter.Stack?
    ensures ReadVariant(Variant(filter)) == filter
  {
    hide ReadBase, GenerationName, BaseName;
    assert "active-only"[0] == 'a';
    assert "legacy-unavailable"[0] == 'l' && "legacy-unavailable"[7] == 'u';
  }

  lemma VariantDeterminesFilter(filter: Filter)
    ensures ReadVariant(Variant(filter)) == filter
  {
    hide ReadVariant, ReadBase, GenerationName, BaseName;
    if !filter.Stack? {
      ReadPlain(filter);
    } else {
      var suffix := if filter.base.Some? then ";base=" + BaseName(filter.base.value) else "";
      assert Variant(filter) == GenerationName(filter.generation) + suffix;
      ReadSuffix(filter.base);
      ReadStack(filter.generation, suffix);
    }
  }

  function Status(row: Row, default_: string): string {
    if "Status" in row then row["Status"] else default_
  }

  // `bases` reads the component libraries out of a row's applicability column.
  predicate Keeps(filter: Filter, bases: Row -> set<string>, row: Row) {
    match filter
    case Whole => true
    case ActiveStyles => Status(row, "active") == "active"
    case LegacyUnavailable => false
    case Stack(g, base) =>
      && (match g
          case LegacyOnly => Status(row, "") == "deprecated"
          case CurrentOnly => Status(row, "") == "active"
          case NonLegacy => Status(row, "unverified") != "deprecated")
      && (base.None? || BaseName(base.value) in bases(row))
  }

  function Select(filter: Filter, bases: Row -> set<string>, rows: seq<Row>): seq<Row> {
    if rows == [] then []
    else (if Keeps(filter, bases, rows[0]) then [rows[0]] else []) + Select(filter, bases, rows[1..])
  }

  // What a stack search knows of its query and its stack.
  datatype StackQuery = StackQuery(legacy: bool, versioned: bool, shadcn: bool, base: Option<Base>)

  // `_stack_row_filter`.
  function StackFilter(rows: seq<Row>, q: StackQuery): Filter {
    var statuses := set row | row in rows :: Status(row, "unverified");
    var base := if q.shadcn then q.base else None;
    if "deprecated" in statuses && q.legacy then Stack(LegacyOnly, base)
    else if q.legacy && q.versioned then LegacyUnavailable
    else if "active" in statuses then Stack(CurrentOnly, base)
    else Stack(NonLegacy, base)
  }

  lemma {:induction false} SelectKeeps(filter: Filter, bases: Row -> set<string>, rows: seq<Row>)
    ensures forall row :: row in Select(filter, bases, rows) <==> row in rows && Keeps(filter, bases, row)
  {
    if rows != [] { SelectKeeps(filter, bases, rows[1..]); }
  }

  // Selected rows keep their order and their number.
  lemma {:induction false} SelectAdds(filter: Filter, bases: Row -> set<string>, rows: seq<Row>, more: seq<Row>)
    ensures Select(filter, bases, rows + more) == Select(filter, bases, rows) + Select(filter, bases, more)
  {
    hide Keeps;
    if rows == [] {
      assert rows + more == more;
    } else {
      SelectAdds(filter, bases, rows[1..], more);
      var head := if Keeps(filter, bases, rows[0]) then [rows[0]] else [];
      var a, b := Select(filter, bases, rows[1..]), Select(filter, bases, more);
      assert (rows + more)[0] == rows[0] && (rows + more)[1..] == rows[1..] + more;
      assert head + (a + b) == head + a + b;
    }
  }

  // What a stack search keeps: for a legacy query the deprecated rows, if there are any,
  // and otherwise none of a stack with current versions; for any other query the active
  // rows if there are any, else all that are not deprecated; on the stack with component
  // libraries only those of the one the query names.
  lemma StackSelection(rows: seq<Row>, q: StackQuery, bases: Row -> set<string>, row: Row)
    ensures var deprecated := exists r :: r in rows && "Status" in r && r["Status"] == "deprecated";
            var active := exists r :: r in rows && "Status" in r && r["Status"] == "active";
            row in Select(StackFilter(rows, q), bases, rows) <==>
              && row in rows
              && (if q.legacy && deprecated then "Status" in row && row["Status"] == "deprecated"
                  else if q.legacy && q.versioned then false
                  else if active then "Status" in row && row["Status"] == "active"
                  else "Status" !in row || row["Status"] != "deprecated")
              && (q.shadcn ==>
                  && (q.base == Some(BaseUi) ==> "base" in bases(row))
                  && (q.base == Some(ReactAria) ==> "aria" in bases(row))
                  && (q.base == Some(Radix) ==> "radix" in bases(row)))
  {
    hide Select, Keeps, BaseName;
    SelectKeeps(StackFilter(rows, q), bases, rows);
    StatusFound(rows, "deprecated");
    StatusFound(rows, "active");
    assert StackFilter(rows, q).LegacyUnavailable? || StackFilter(rows, q).Stack?;
    KeepsInline(StackFilter(rows, q), bases, row);
  }

  lemma KeepsInline(filter: Filter, bases: Row -> set<string>, row: Row)
    ensures filter.Whole? ==> Keeps(filter, bases, row)
    ensures filter.ActiveStyles? ==> (Keeps(filter, bases, row) <==> "Status" !in row || row["Status"] == "active")
    ensures filter.LegacyUnavailable? || filter.Stack? ==>
            (Keeps(filter, bases, row) <==>
              && filter.Stack?
              && (match filter.generation
                  case LegacyOnly => "Status" in row && row["Status"] == "deprecated"
                  case CurrentOnly => "Status" in row && row["Status"] == "active"
                  case NonLegacy => "Status" !in row || row["Status"] != "deprecated")
              && (filter.base == Some(BaseUi) ==> "base" in bases(row))
              && (filter.base == Some(ReactAria) ==> "aria" in bases(row))
              && (filter.base == Some(Radix) ==> "radix" in bases(row)))
  {
    assert "unverified"[0] != "deprecated"[0] && "" != "deprecated" && "" != "active";
  }

  lemma StatusFound(rows: seq<Row>, status: string)
    requires status != "unverified"
    ensures status in (set row | row in rows :: Status(row, "unverified")) <==>
            exists r :: r in rows && "Status" in r && r["Status"] == status
  {
  }

  // Whichever reading of the file the filter was chosen from, a stack search never
  // mixes deprecated rows with others.
  lemma OneGeneration(chosenFrom: seq<Row>, q: StackQuery, bases: Row -> set<string>, rows: seq<Row>, a: Row, b: Row)
    requires a in Select(StackFilter(chosenFrom, q), bases, rows) &&
             b in Select(StackFilter(chosenFrom, q), bases, rows)
    ensures Status(a, "") == "deprecated" <==> Status(b, "") == "deprecated"
  {
    SelectKeeps(StackFilter(chosenFrom, q), bases, rows);
  }

  // ----- documents -----

  function Cell(row: Row, column: Column): string {
    if column in row then row[column] else ""
  }

  function JoinCells(row: Row, columns: seq<Column>): string {
    if columns == [] then ""
    else if |columns| == 1 then Cell(row, columns[0])
    else Cell(row, columns[0]) + " " + JoinCells(row, columns[1..])
  }

  // Each further column is written after a blank, a missing cell as the empty text.
  lemma {:induction false} CellsAreJoined(row: Row, columns: seq<Column>, last: Column)
    ensures JoinCells(row, columns + [last]) ==
            (if columns == [] then "" else JoinCells(row, columns) + " ") + (if last in row then row[last] else "")
  {
    if columns == [] {
    } else {
      assert (columns + [last])[1..] == columns[1..] + [last];
      CellsAreJoined(row, columns[1..], last);
    }
  }

  function Documents(columns: seq<Column>, rows: seq<Row>): seq<string> {
    seq(|rows|, i requires 0 <= i < |rows| => JoinCells(rows[i], columns))
  }

  // ----- files and caches -----

  datatype File = Missing | Unreadable | Table(rows: seq<Row>)

  datatype Write = Write(path: Path, file: File)

  datatype Key = Key(path: Path, columns: seq<Column>, version: nat, variant: string)

  datatype Outcome = MissingFile | ReadError | EmptyData | Ranked(entries: seq<Entry>)

  class Searcher {
    const tokenize: Tokenizer
    const weight: Weight
    const bases: Row -> set<string>
    // All states each file has had, the present one last; the position stands for the
    // signature, which no two states of a file share.
    var versions: map<Path, seq<File>>
    var csvCache: map<Path, (nat, seq<Row>)>
    var indexCache: map<Key, (nat, TunedIndex)>
    ghost var indexes: set<TunedIndex>

    constructor (tokenize: Tokenizer, weight: Weight, bases: Row -> set<string>)
      ensures Valid() && versions == map[]
    {
      this.tokenize, this.weight, this.bases := tokenize, weight, bases;
      versions, csvCache, indexCache, indexes := map[], map[], map[], {};
    }

    ghost predicate Was(path: Path, signature: nat, rows: seq<Row>)
      reads this`versions
    {
      path in versions && signature < |versions[path]| && versions[path][signature] == Table(rows)
    }

    // The index is what fitting the selected rows anew would give.
    ghost predicate Fresh(index: TunedIndex, columns: seq<Column>, filter: Filter, rows: seq<Row>)
      reads index
    {
      && index.tokenize == tokenize && index.weight == weight
      && index.FittedTo(Documents(columns, Select(filter, bases, rows)))
    }

    ghost predicate IndexOk(key: Key, signature: nat, index: TunedIndex)
      reads this`versions, index
    {
      exists rows: seq<Row> :: Was(key.path, signature, rows) &&
        Fresh(index, key.columns, ReadVariant(key.variant), rows)
    }

    ghost predicate CsvCacheOk()
      reads this`versions, this`csvCache
    {
      forall path :: path in csvCache ==> Was(path, csvCache[path].0, csvCache[path].1)
    }

    ghost predicate IndexCacheOk()
      reads this`versions, this`indexCache, this`indexes, indexes
    {
      forall key :: key in indexCache ==>
                      indexCache[key].1 in indexes && IndexOk(key, indexCache[key].0, indexCache[key].1)
    }

    ghost predicate Valid()
      reads this, indexes
    {
      (forall path :: path in versions ==> versions[path] != []) && CsvCacheOk() && IndexCacheOk()
    }

    function Present(path: Path): File
      reads this`versions
    {
      if path in versions && versions[path] != [] then versions[path][|versions[path]| - 1] else Missing
    }

    function Count(path: Path): nat
      reads this`versions
    {
      if path in versions then |versions[path]| else 0
    }

    // Files only gain states.
    twostate predicate Onward()
      reads this`versions
    {
      forall path :: path in old(versions) ==> path in versions && old(versions)[path] <= versions[path]
    }

    twostate lemma CachesOutlastWrites()
      requires old(Valid()) && Onward() && csvCache == old(csvCache) && indexCache == old(indexCache) &&
               indexes == old(indexes)
      requires forall index :: index in indexes ==> unchanged(index)
      ensures CsvCacheOk() && IndexCacheOk()
    {
      forall path: Path, signature: nat, rows: seq<Row> | old(Was(path, signature, rows))
        ensures Was(path, signature, rows) {}
      forall key | key in indexCache ensures IndexOk(key, indexCache[key].0, indexCache[key].1) {
        assert old(IndexOk(key, indexCache[key].0, indexCache[key].1));
      }
    }

    method Rewrite(w: Write)
      requires Valid()
      modifies this`versions
      ensures Valid() && Onward() && Present(w.path) == w.file && Count(w.path) == old(Count(w.path)) + 1
    {
      var states := if w.path in versions then versions[w.path] else [];
      versions := versions[w.path := states + [w.file]];
      CachesOutlastWrites();
    }

    method Others(writes: seq<Write>)
      requires Valid()
      modifies this`versions
      ensures Valid() && Onward()
      ensures writes == [] ==> versions == old(versions)
    {
      for i := 0 to |writes|
        invariant Valid() && Onward()
        invariant i == 0 ==> versions == old(versions)
      {
        Rewrite(writes[i]);
      }
    }

    // Reading takes time; a file rewritten meanwhile gives whatever it gives.
    method Read(path: Path, meanwhile: seq<Write>, torn: Option<seq<Row>>) returns (rows: Option<seq<Row>>)
      requires Valid()
      modifies this`versions
      ensures Valid() && Onward()
      ensures Count(path) == old(Count(path)) ==> rows == if Present(path).Table? then Some(Present(path).rows)
              else None
      ensures meanwhile == [] ==> versions == old(versions)
    {
      var before := Count(path);
      Others(meanwhile);
      rows := if Count(path) != before then torn else if Present(path).Table? then Some(Present(path).rows) else None;
    }

    // One reading between two looks at the signature: stable if they agree.
    method Attempt(path: Path, earlier: seq<Write>, meanwhile: seq<Write>, torn: Option<seq<Row>>)
      returns (rows: Option<seq<Row>>, signature: nat, stable: bool)
      requires Valid()
      modifies this`versions
      ensures Valid() && Onward()
      ensures rows.Some? && stable ==> Was(path, signature, rows.value) && signature + 1 >= old(Count(path))
      ensures earlier == [] && meanwhile == [] ==>
                versions == old(versions) && stable && rows.Some? == Present(path).Table?
    {
      Others(earlier);
      if Present(path).Missing? { return None, 0, true; }
      signature := Count(path) - 1;
      rows := Read(path, meanwhile, torn);
      stable := Count(path) == signature + 1;
      if Present(path).Missing? { rows := None; }
    }

    // What other programs write, and what torn reads give, from step to step.
    method LoadSnapshot(path: Path, writes: nat -> seq<Write>, torn: nat -> Option<seq<Row>>)
      returns (result: Option<(seq<Row>, nat)>)
      requires Valid()
      modifies this`versions, this`csvCache
      ensures Valid() && Onward()
      ensures result.Some? ==> Was(path, result.value.1, result.value.0) && result.value.1 + 1 >= old(Count(path))
      ensures (forall n :: writes(n) == []) ==> versions == old(versions) && result.Some? == Present(path).Table?
    {
      if Present(path).Missing? { return None; }
      var signature := Count(path) - 1;
      if path in csvCache && csvCache[path].0 == signature {
        return Some((csvCache[path].1, signature));
      }
      for i := 0 to ATTEMPTS
        invariant Valid() && Onward()
        invariant (forall n :: writes(n) == []) ==> i == 0 && versions == old(versions)
      {
        var rows, at, stable := Attempt(path, writes(2 * i), writes(2 * i + 1), torn(i));
        if rows.None? { return None; }
        if stable {
          Remember(path, at, rows.value);
          return Some((rows.value, at));
        }
      }
      return None;
    }

    method Remember(path: Path, signature: nat, rows: seq<Row>)
      requires Valid() && Was(path, signature, rows)
      modifies this`csvCache
      ensures Valid()
    {
      csvCache := csvCache[path := (signature, rows)];
    }

    // The signature that `_get_bm25` goes by: the caller's, else that of the cached rows if
    // the data are that very list, else the file's own, if there is a file.
    function Used(path: Path, signature: Option<nat>, isCachedList: bool): Option<nat>
      reads this`versions, this`csvCache
    {
      if signature.Some? then signature
      else if isCachedList && path in csvCache then Some(csvCache[path].0)
      else if Present(path).Missing? then None
      else Some(Count(path) - 1)
    }

    ghost predicate Hit(key: Key, signature: nat)
      reads this`indexCache
    {
      key in indexCache && indexCache[key].0 == signature
    }

    // The data give the documents of the selected rows of the file under the signature.
    ghost predicate Matching(path: Path, signature: nat, columns: seq<Column>, filter: Filter, data: seq<Row>)
      reads this`versions
    {
      exists rows: seq<Row> ::
        && Was(path, signature, rows)
        && Tokenized(tokenize, Documents(columns, data)) ==
             Tokenized(tokenize, Documents(columns, Select(filter, bases, rows)))
    }

    // A hit returns the cached index, a miss fits and stores a new one.  The caches stay
    // right exactly if it was a hit or the data match the signature, and then the index
    // is fitted to the data either way.
    method GetIndex(path: Path, columns: seq<Column>, data: seq<Row>, signature: Option<nat>, isCachedList: bool,
                    filter: Filter)
      returns (index: Option<TunedIndex>)
      requires Valid()
      requires isCachedList ==> path in csvCache && csvCache[path].1 == data
      modifies this`indexCache, this`indexes
      ensures index.None? <==> signature.None? && !isCachedList && Present(path).Missing?
      ensures index.None? ==> indexCache == old(indexCache) && indexes == old(indexes)
      ensures index.Some? ==>
                var key := Key(path, columns, INDEX_VERSION, Variant(filter));
                var used := if signature.Some? then signature.value
                            else if isCachedList then csvCache[path].0 else |versions[path]| - 1;
                && index.value in indexes
                && (old(Hit(key, used)) ==> indexCache == old(indexCache) && index.value == indexCache[key].1)
                && (!old(Hit(key, used)) ==>
                      indexCache == old(indexCache)[key := (used, index.value)] && Indexes(index.value, columns, data))
                && (Valid() <==> old(Hit(key, used)) || Matching(path, used, columns, filter, data))
                && (Matching(path, used, columns, filter, data) ==> Indexes(index.value, columns, data))
    {
      hide Matching, IndexOk, CsvCacheOk, ReadVariant, Variant, Indexes;
      var chosen := Used(path, signature, isCachedList);
      if chosen.None? { return None; }
      var used := chosen.value;
      var key := Key(path, columns, INDEX_VERSION, Variant(filter));
      VariantDeterminesFilter(filter);
      if key in indexCache && indexCache[key].0 == used {
        var found := indexCache[key].1;
        assert IndexOk(key, used, found);
        if Matching(path, used, columns, filter, data) { MatchingIfRight(key, used, found, filter, data); }
        return Some(found);
      }
      var fitted := new TunedIndex(tokenize, weight);
      fitted.Fit(Documents(columns, data));
      assert Indexes(fitted, columns, data) by { IsFitted(fitted, columns, data); }
      Store(key, used, fitted, filter, data);
      index := Some(fitted);
    }

    ghost predicate Indexes(index: TunedIndex, columns: seq<Column>, data: seq<Row>)
      reads index
    {
      index.tokenize == tokenize && index.weight == weight && index.FittedTo(Documents(columns, data))
    }

    lemma IsFitted(index: TunedIndex, columns: seq<Column>, data: seq<Row>)
      requires index.tokenize == tokenize && index.weight == weight && index.FittedTo(Documents(columns, data))
      ensures Indexes(index, columns, data)
    {
    }

    // An index fitted to the data is the right one exactly if the data match.
    lemma RightIfMatching(key: Key, signature: nat, index: TunedIndex, filter: Filter, data: seq<Row>)
      requires ReadVariant(key.variant) == filter && Indexes(index, key.columns, data)
      ensures IndexOk(key, signature, index) <==> Matching(key.path, signature, key.columns, filter, data)
    {
      hide ReadVariant, Select, Documents, Was;
      forall rows: seq<Row> | Was(key.path, signature, rows)
        ensures Fresh(index, key.columns, filter, rows) <==>
                Tokenized(tokenize, Documents(key.columns, data)) ==
                  Tokenized(tokenize, Documents(key.columns, Select(filter, bases, rows)))
      {
      }
    }

    // A right index is fitted to any matching data.
    lemma MatchingIfRight(key: Key, signature: nat, index: TunedIndex, filter: Filter, data: seq<Row>)
      requires ReadVariant(key.variant) == filter && IndexOk(key, signature, index)
      requires Matching(key.path, signature, key.columns, filter, data)
      ensures Indexes(index, key.columns, data)
    {
      hide ReadVariant, Select, Documents;
    }

    method Store(key: Key, signature: nat, index: TunedIndex, ghost filter: Filter, ghost data: seq<Row>)
      requires Valid() && ReadVariant(key.variant) == filter && Indexes(index, key.columns, data)
      modifies this`indexCache, this`indexes
      ensures indexes == old(indexes) + {index} && indexCache == old(indexCache)[key := (signature, index)]
      ensures Valid() <==> Matching(key.path, signature, key.columns, filter, data)
    {
      hide Indexes, Matching, IndexOk, CsvCacheOk, ReadVariant;
      ghost var before := indexCache;
      indexCache := indexCache[key := (signature, index)];
      indexes := indexes + {index};
      RightIfMatching(key, signature, index, filter, data);
      assert forall k :: k in before && k != key ==> IndexOk(k, before[k].0, before[k].1) by {
        assert forall k :: k in before ==> old(IndexOk(k, before[k].0, before[k].1));
      }
      assert key in indexCache && indexCache[key] == (signature, index);
      assert CsvCacheOk();
      assert IndexCacheOk() <==> IndexOk(key, signature, index);
    }

    ghost predicate RankedAs(entries: seq<Entry>, columns: seq<Column>, filter: Filter, rows: seq<Row>, query: string)
    {
      entries == Ranking(Tokenized(tokenize, Documents(columns, Select(filter, bases, rows))), weight, tokenize(query))
    }

    // The index of the selected rows, and its ranking.
    method Rank(path: Path, columns: seq<Column>, data: seq<Row>, signature: nat, filter: Filter,
                ghost rows: seq<Row>, query: string)
      returns (entries: seq<Entry>)
      requires Valid() && Was(path, signature, rows) && data == Select(filter, bases, rows)
      modifies this`indexCache, this`indexes
      ensures Valid() && RankedAs(entries, columns, filter, rows, query)
    {
      hide CsvCacheOk, IndexCacheOk, Select, Documents, Variant, IndexOk;
      assert Matching(path, signature, columns, filter, data);
      var index := GetIndex(path, columns, data, Some(signature), false, filter);
      entries := index.value.Score(query, Documents(columns, data));
    }

    // However often files were rewritten and searched before, the ranking is that of
    // the selected rows of a state the file had after the search began.
    method Search(path: Path, columns: seq<Column>, query: string, filter: Filter, writes: nat -> seq<Write>,
                  torn: nat -> Option<seq<Row>>)
      returns (outcome: Outcome)
      requires Valid()
      modifies this
      ensures Valid() && Onward()
      ensures outcome.Ranked? ==> exists rows: seq<Row>, signature: nat ::
                Was(path, signature, rows) && signature + 1 >= old(Count(path)) &&
                  RankedAs(outcome.entries, columns, filter, rows, query)
      ensures (forall n :: writes(n) == []) ==>
                versions == old(versions) &&
                match Present(path)
                case Missing => outcome == MissingFile
                case Unreadable => outcome == ReadError
                case Table(rows) =>
                  if Select(filter, bases, rows) == [] then outcome == EmptyData
                  else outcome.Ranked? && RankedAs(outcome.entries, columns, filter, rows, query)
    {
      if Present(path).Missing? { return MissingFile; }
      var snapshot := LoadSnapshot(path, writes, torn);
      if snapshot.None? { return ReadError; }
      var rows, signature := snapshot.value.0, snapshot.value.1;
      var data := Select(filter, bases, rows);
      if data == [] { return EmptyData; }
      var entries := Rank(path, columns, data, signature, filter, rows, query);
      outcome := Ranked(entries);
      assert Was(path, signature, rows) && RankedAs(entries, columns, filter, rows, query);
    }

    // The rows of a state from the `from`-th to the `to`-th, or none if they could not be
    // read.
    ghost predicate ReadBetween(path: Path, from: nat, to: nat, rows: seq<Row>)
      reads this`versions
    {
      rows == [] || exists signature: nat :: Was(path, signature, rows) && from <= signature + 1 <= to
    }

    // `search_stack`: the filter is chosen from one reading of the file and used on a
    // later one.
    method SearchStack(path: Path, columns: seq<Column>, query: string, q: StackQuery,
                       writes: nat -> seq<Write>, torn: nat -> Option<seq<Row>>,
                       writesLater: nat -> seq<Write>, tornLater: nat -> Option<seq<Row>>)
      returns (outcome: Outcome)
      requires Valid()
      modifies this
      ensures Valid() && Onward()
      ensures outcome.Ranked? ==> exists chosenFrom: seq<Row>, rows: seq<Row>, signature: nat ::
                && ReadBetween(path, old(Count(path)), signature + 1, chosenFrom)
                && Was(path, signature, rows) && signature + 1 >= old(Count(path))
                && RankedAs(outcome.entries, columns, StackFilter(chosenFrom, q), rows, query)
      ensures (forall n :: writes(n) == [] && writesLater(n) == []) ==>
                versions == old(versions) &&
                match Present(path)
                case Missing => outcome == MissingFile
                case Unreadable => outcome == ReadError
                case Table(rows) =>
                  if Select(StackFilter(rows, q), bases, rows) == [] then outcome == EmptyData
                  else outcome.Ranked? && RankedAs(outcome.entries, columns, StackFilter(rows, q), rows, query)
    {
      hide CsvCacheOk, IndexCacheOk, Select, StackFilter, RankedAs;
      var snapshot := LoadSnapshot(path, writes, torn);
      var chosenFrom := if snapshot.Some? then snapshot.value.0 else [];
      label Chosen:
      outcome := Search(path, columns, query, StackFilter(chosenFrom, q), writesLater, tornLater);
      if snapshot.Some? {
        assert old@Chosen(Was(path, snapshot.value.1, chosenFrom)) && Was(path, snapshot.value.1, chosenFrom);
        assert old@Chosen(Count(path)) > snapshot.value.1;
      }
    }
  }
}
