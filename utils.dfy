/**
 * The shared helpers of the command layer: merging the two filter sources
 * of a list command, and the two presenters (a table for many objects, a
 * field list for one).
 */
module Utils {
  import opened Wrappers
  import opened Client

  // ---------------------------------------------------------------------
  // Filter merging (combine_filter_json)
  // ---------------------------------------------------------------------

  /**
   * What decoding one filter source gave: the JSON value, or the exception
   * raised while reading or decoding it. An absent source is `None`.
   */
  type Decoded = Result<Json, Exception>

  /** dict.update with a mapping: every key of `other` is set to its value in `other`; the other keys keep theirs. */
  function Update(d: Criteria, other: Criteria): (r: Criteria)
    ensures r.Keys == d.Keys + other.Keys
    ensures forall k :: k in other ==> r[k] == other[k]
    ensures forall k :: k in d && k !in other ==> r[k] == d[k]
  {
    d + other
  }

  /** The keys named by a sequence of key/value pairs. */
  function KeysOf(pairs: seq<(string, Json)>): set<string>
  {
    set i | 0 <= i < |pairs| :: pairs[i].0
  }

  /** Pair i is the last one in `pairs` with its key. */
  predicate LastWithKey(pairs: seq<(string, Json)>, i: int)
    requires 0 <= i < |pairs|
  {
    forall j :: i < j < |pairs| ==> pairs[j].0 != pairs[i].0
  }

  /**
   * dict.update with a sequence of pairs: each pair is stored in turn, so
   * the last pair with a key decides its value; keys no pair names keep theirs.
   */
  function UpdatePairs(d: Criteria, pairs: seq<(string, Json)>): (r: Criteria)
    ensures r.Keys == d.Keys + KeysOf(pairs)
    ensures forall k :: k in d && k !in KeysOf(pairs) ==> r[k] == d[k]
    ensures forall i :: 0 <= i < |pairs| && LastWithKey(pairs, i) ==> r[pairs[i].0] == pairs[i].1
    decreases |pairs|
  {
    if pairs == [] then d
    else
      var r := UpdatePairs(d[pairs[0].0 := pairs[0].1], pairs[1..]);
      assert KeysOf(pairs) == {pairs[0].0} + KeysOf(pairs[1..]) by {
        forall k | k in KeysOf(pairs[1..]) ensures k in KeysOf(pairs) {
          var i :| 0 <= i < |pairs[1..]| && pairs[1..][i].0 == k;
          assert pairs[i + 1].0 == k;
        }
      }
      forall i | 0 <= i < |pairs| && LastWithKey(pairs, i)
        ensures r[pairs[i].0] == pairs[i].1
      {
        if i == 0 {
          assert pairs[0].0 !in KeysOf(pairs[1..]);
        } else {
          assert pairs[1..][i - 1] == pairs[i];
          assert LastWithKey(pairs[1..], i - 1);
        }
      }
      r
  }

  /** The length of a decoded value when Python can iterate it, None when it cannot. */
  function IterLength(j: Json): Option<nat>
  {
    match j
    case JString(s) => Some(|s|)
    case JArray(items) => Some(|items|)
    case JObject(members) => Some(|members|)
    case _ => None
  }

  /**
   * One element of a sequence given to dict.update, read as a key/value
   * pair: it must be iterable with exactly two items, and the first must
   * be hashable. A two-character string is the pair of its characters.
   */
  function ItemPair(item: Json): (r: Result<(string, Json), Exception>)
    ensures IterLength(item).None? ==> r == Failure(TypeError)
    ensures IterLength(item).Some? && IterLength(item).value != 2 ==> r == Failure(ValueError)
    ensures r.Success? ==> IterLength(item) == Some(2)
    ensures r.Success? && item.JString? ==> r.value == ([item.s[0]], JString([item.s[1]]))
    ensures r.Success? ==> item.JString? || (item.JArray? && item.items[0] == JString(r.value.0) && r.value.1 == item.items[1])
    ensures item.JArray? && |item.items| == 2 && item.items[0].JString? ==> r.Success?
    ensures item.JString? && |item.s| == 2 ==> r == Success(([item.s[0]], JString([item.s[1]])))
    ensures item.JArray? && |item.items| == 2 && (item.items[0].JArray? || item.items[0].JObject?) ==> r == Failure(TypeError)
  {
    match item
    case JString(s) =>
      if |s| == 2 then Success(([s[0]], JString([s[1]]))) else Failure(ValueError)
    case JArray(items) =>
      if |items| != 2 then Failure(ValueError)
      else (match items[0]
            case JString(k) => Success((k, items[1]))
            case JArray(_) => Failure(TypeError)
            case JObject(_) => Failure(TypeError)
            case _ => Failure(Unrepresentable))
    case JObject(members) =>
      if |members| != 2 then Failure(ValueError) else Failure(Unrepresentable)
    case _ => Failure(TypeError)
  }

  /** The elements of a sequence read as pairs in order; the first element that is not a pair raises. */
  function ItemPairs(items: seq<Json>): (r: Result<seq<(string, Json)>, Exception>)
    ensures r.Success? <==> forall i :: 0 <= i < |items| ==> ItemPair(items[i]).Success?
    ensures r.Success? ==> |r.value| == |items| && forall i :: 0 <= i < |items| ==> ItemPair(items[i]) == Success(r.value[i])
    ensures r.Failure? ==> exists i :: 0 <= i < |items| && ItemPair(items[i]) == Failure(r.error)
                                       && forall j :: 0 <= j < i ==> ItemPair(items[j]).Success?
    decreases |items|
  {
    if items == [] then Success([])
    else
      var first := ItemPair(items[0]);
      if first.Failure? then Failure(first.error)
      else
        var rest := ItemPairs(items[1..]);
        if rest.Failure? then
          var i :| 0 <= i < |items[1..]| && ItemPair(items[1..][i]) == Failure(rest.error)
                   && forall j :: 0 <= j < i ==> ItemPair(items[1..][j]).Success?;
          assert items[i + 1] == items[1..][i];
          assert forall j :: 1 <= j < i + 1 ==> items[j] == items[1..][j - 1];
          Failure(rest.error)
        else
          assert forall i :: 1 <= i < |items| ==> items[i] == items[1..][i - 1];
          Success([first.value] + rest.value)
  }

  /**
   * d.update(arg) for a decoded JSON value: an object is merged as a
   * mapping; any other iterable as a sequence of pairs (so the empty string
   * changes nothing and any other string raises ValueError); a number,
   * boolean or null is not iterable and raises TypeError.
   */
  function DictUpdate(d: Criteria, arg: Json): (r: Result<Criteria, Exception>)
    ensures arg.JObject? ==> r == Success(Update(d, arg.members))
    ensures IterLength(arg).None? ==> r == Failure(TypeError)
    ensures arg.JString? && arg.s == [] ==> r == Success(d)
    ensures arg.JString? && arg.s != [] ==> r == Failure(ValueError)
    ensures arg.JArray? ==> (r.Success? <==> ItemPairs(arg.items).Success?)
    ensures arg.JArray? && r.Success? ==> r.value == UpdatePairs(d, ItemPairs(arg.items).value)
    ensures arg.JArray? && r.Failure? ==> r.error == ItemPairs(arg.items).error
  {
    match arg
    case JObject(members) => Success(Update(d, members))
    case JString(s) =>
      if s == [] then Success(d)
      else assert ItemPair(JString([s[0]])) == Failure(ValueError); Failure(ValueError)
    case JArray(items) =>
      var pairs :- ItemPairs(items);
      Success(UpdatePairs(d, pairs))
    case _ => Failure(TypeError)
  }

  /** Storing pairs one by one into `d` is the same as merging the dictionary built from them over `d`. */
  lemma {:induction false} UpdatePairsIsUnion(d: Criteria, pairs: seq<(string, Json)>)
    ensures UpdatePairs(d, pairs) == Update(d, UpdatePairs(map[], pairs))
    decreases |pairs|
  {
    if pairs != [] {
      var k, v, rest := pairs[0].0, pairs[0].1, pairs[1..];
      UpdatePairsIsUnion(d[k := v], rest);
      UpdatePairsIsUnion(map[k := v], rest);
      var tail := UpdatePairs(map[], rest);
      calc {
        UpdatePairs(d, pairs);
        UpdatePairs(d[k := v], rest);
        Update(d[k := v], tail);
        { StoreThenMerge(d, k, v, tail); }
        Update(d, Update(map[k := v], tail));
        { assert map[][k := v] == map[k := v]; }
        Update(d, UpdatePairs(map[], pairs));
      }
    }
  }

  /** Storing one key and then merging a map over d is merging, over d, that key stored and the map merged. */
  lemma StoreThenMerge(d: Criteria, k: string, v: Json, t: Criteria)
    ensures Update(d[k := v], t) == Update(d, Update(map[k := v], t))
  {
  }

  /**
   * d.update(arg) raises exactly when {}.update(arg) does, with the same
   * exception, and otherwise merges the dictionary {}.update(arg) builds over d.
   */
  lemma DictUpdateIsUnion(d: Criteria, arg: Json)
    ensures DictUpdate(d, arg).Success? <==> DictUpdate(map[], arg).Success?
    ensures DictUpdate(d, arg).Failure? ==> DictUpdate(d, arg).error == DictUpdate(map[], arg).error
    ensures DictUpdate(d, arg).Success? ==> DictUpdate(d, arg).value == Update(d, DictUpdate(map[], arg).value)
  {
    match arg
    case JObject(members) =>
      assert Update(map[], members) == members;
    case JString(s) =>
      assert Update(d, map[]) == d;
    case JArray(items) =>
      if ItemPairs(items).Success? {
        UpdatePairsIsUnion(d, ItemPairs(items).value);
      }
    case _ =>
  }

  /**
   * What one source contributes to the merge: nothing when it is absent,
   * the exception it raised when reading or decoding failed, otherwise what
   * updating an empty dictionary with its value gives.
   */
  function Contribution(source: Option<Decoded>): (r: Result<Criteria, Exception>)
    ensures source.None? ==> r == Success(map[])
    ensures source.Some? && source.value.Failure? ==> r == Failure(source.value.error)
    ensures source.Some? && source.value.Success? && source.value.value.JObject? ==> r == Success(source.value.value.members)
  {
    match source
    case None => Success(map[])
    case Some(Failure(e)) => Failure(e)
    case Some(Success(j)) =>
      assert j.JObject? ==> Update(map[], j.members) == j.members;
      DictUpdate(map[], j)
  }

  /**
   * The criteria a list command queries with: the inline filters, then the
   * filters file merged over them, so that the file wins on a shared key.
   * Either source failing fails the whole merge, the inline one first.
   */
  function CombinedFilters(filters: Option<Decoded>, filtersFile: Option<Decoded>): (r: Result<Criteria, Exception>)
    ensures filters.None? && filtersFile.None? ==> r == Success(map[])
    ensures filtersFile.None? ==> r == Contribution(filters)
    ensures r.Success? <==> Contribution(filters).Success? && Contribution(filtersFile).Success?
    ensures Contribution(filters).Failure? ==> r == Failure(Contribution(filters).error)
    ensures Contribution(filters).Success? && Contribution(filtersFile).Failure? ==>
              r == Failure(Contribution(filtersFile).error)
    ensures r.Success? ==>
              var inline, file := Contribution(filters).value, Contribution(filtersFile).value;
              && r.value.Keys == inline.Keys + file.Keys
              && (forall k :: k in file ==> r.value[k] == file[k])
              && (forall k :: k in inline && k !in file ==> r.value[k] == inline[k])
  {
    var inline :- Contribution(filters);
    var file :- Contribution(filtersFile);
    assert filtersFile.None? ==> Update(inline, file) == inline;
    Success(Update(inline, file))
  }

  /**
   * combine_filter_json: starts from an empty dictionary and updates it in
   * place, first with the inline filters, then with the filters file.
   */
  method CombineFilterJson(filters: Option<Decoded>, filtersFile: Option<Decoded>) returns (r: Result<Criteria, Exception>)
    ensures r == CombinedFilters(filters, filtersFile)
  {
    var combined: Criteria := map[];
    if filters.Some? {
      var decoded :- filters.value;
      combined :- DictUpdate(combined, decoded);
    }
    if filtersFile.Some? {
      var decoded :- filtersFile.value;
      DictUpdateIsUnion(combined, decoded);
      combined :- DictUpdate(combined, decoded);
    }
    return Success(combined);
  }

  // ---------------------------------------------------------------------
  // Attribute lookup (getattr)
  // ---------------------------------------------------------------------

  /** Every attribute in `attrs` can be read off `obj`. */
  predicate HasAll(obj: RemoteObject, attrs: seq<string>)
  {
    forall j :: 0 <= j < |attrs| ==> attrs[j] in obj
  }

  /** Every object in `objects` has every attribute in `attrs`. */
  predicate AllHave(objects: seq<RemoteObject>, attrs: seq<string>)
  {
    forall i :: 0 <= i < |objects| ==> HasAll(objects[i], attrs)
  }

  /**
   * The attribute whose getattr raises first when the attributes are read
   * in order, if any.
   */
  function MissingAttribute(obj: RemoteObject, attrs: seq<string>): (m: Option<string>)
    ensures m.None? <==> HasAll(obj, attrs)
    ensures m.Some? ==> exists k :: 0 <= k < |attrs| && attrs[k] == m.value && m.value !in obj && HasAll(obj, attrs[..k])
    decreases |attrs|
  {
    if attrs == [] then None
    else if attrs[0] !in obj then
      assert HasAll(obj, attrs[..0]);
      Some(attrs[0])
    else
      var m := MissingAttribute(obj, attrs[1..]);
      if m.Some? then
        var k :| 0 <= k < |attrs[1..]| && attrs[1..][k] == m.value && m.value !in obj && HasAll(obj, attrs[1..][..k]);
        assert attrs[..k + 1] == [attrs[0]] + attrs[1..][..k];
        m
      else
        m
  }

  /**
   * The attribute whose getattr raises first when the objects are read in
   * order, each attribute by attribute, if any.
   */
  function MissingInAny(objects: seq<RemoteObject>, attrs: seq<string>): (m: Option<string>)
    ensures m.None? <==> AllHave(objects, attrs)
    ensures m.Some? ==> exists i :: 0 <= i < |objects| && MissingAttribute(objects[i], attrs) == m && AllHave(objects[..i], attrs)
    decreases |objects|
  {
    if objects == [] then None
    else
      var first := MissingAttribute(objects[0], attrs);
      if first.Some? then
        assert AllHave(objects[..0], attrs);
        first
      else
        var m := MissingInAny(objects[1..], attrs);
        if m.Some? then
          var i :| 0 <= i < |objects[1..]| && MissingAttribute(objects[1..][i], attrs) == m && AllHave(objects[1..][..i], attrs);
          assert objects[..i + 1] == [objects[0]] + objects[1..][..i];
          m
        else
          forall i | 0 <= i < |objects|
            ensures HasAll(objects[i], attrs)
          {
            if i > 0 {
              assert objects[i] == objects[1..][i - 1];
            }
          }
          m
  }

  // ---------------------------------------------------------------------
  // Table presenter (generate_table)
  // ---------------------------------------------------------------------

  /**
   * What generate_table hands to tabulate: the header row and the data
   * rows. Column alignment is tabulate's and is not modelled.
   */
  datatype Table = Table(headers: seq<string>, rows: seq<seq<string>>)

  /** [getattr(object, attr) for attr in attrs]: the object's values in attribute order. */
  function Project(obj: RemoteObject, attrs: seq<string>): (values: seq<string>)
    requires HasAll(obj, attrs)
    ensures |values| == |attrs|
    ensures forall j :: 0 <= j < |attrs| ==> values[j] == obj[attrs[j]]
    decreases |attrs|
  {
    if attrs == [] then [] else [obj[attrs[0]]] + Project(obj, attrs[1..])
  }

  /** [[...] for object in objects]: one projected row per object, in object order. */
  function Rows(objects: seq<RemoteObject>, attrs: seq<string>): (rows: seq<seq<string>>)
    requires AllHave(objects, attrs)
    ensures |rows| == |objects|
    ensures forall i :: 0 <= i < |objects| ==> rows[i] == Project(objects[i], attrs)
    decreases |objects|
  {
    if objects == [] then [] else [Project(objects[0], attrs)] + Rows(objects[1..], attrs)
  }

  /**
   * generate_table: headers are the attributes; row i, column j is
   * attribute j of object i; no objects gives a header-only table.
   */
  function GenerateTable(objects: seq<RemoteObject>, attrs: seq<string>): (t: Table)
    requires AllHave(objects, attrs)
    ensures t.headers == attrs
    ensures |t.rows| == |objects|
    ensures forall i :: 0 <= i < |t.rows| ==> |t.rows[i]| == |attrs|
    ensures forall i, j :: 0 <= i < |objects| && 0 <= j < |attrs| ==> t.rows[i][j] == objects[i][attrs[j]]
  {
    Table(attrs, Rows(objects, attrs))
  }

  // ---------------------------------------------------------------------
  // Joining and splitting lines ("\n".join and its inverse str.split)
  // ---------------------------------------------------------------------

  const NewLine: char := '\n'

  /** sep.join(parts): the parts with `sep` between neighbours, none at either end. */
  function Join(sep: string, parts: seq<string>): (text: string)
    ensures |parts| == 0 ==> text == ""
    ensures |parts| >= 1 ==> parts[0] <= text
    ensures |parts| >= 1 ==>
              var last := parts[|parts| - 1];
              |last| <= |text| && text[|text| - |last|..] == last
    decreases |parts|
  {
    if |parts| == 0 then ""
    else if |parts| == 1 then parts[0]
    else
      var tail := Join(sep, parts[1..]);
      var text := parts[0] + sep + tail;
      var last := parts[|parts| - 1];
      assert text[|text| - |last|..] == tail[|tail| - |last|..];
      text
  }

  /** s.split(sep) for a one-character separator: the pieces between separators. */
  function Split(s: string, sep: char): (parts: seq<string>)
    ensures |parts| >= 1
    decreases |s|
  {
    if s == [] then [[]]
    else
      var rest := Split(s[1..], sep);
      if s[0] == sep then [[]] + rest else [[s[0]] + rest[0]] + rest[1..]
  }

  /** A line split on `sep` that does not contain `sep` is that one line. */
  lemma {:induction false} SplitNoSeparator(line: string, sep: char)
    requires sep !in line
    ensures Split(line, sep) == [line]
    decreases |line|
  {
    if line != [] {
      SplitNoSeparator(line[1..], sep);
      assert [line[0]] + line[1..] == line;
    }
  }

  /** Splitting at the first separator peels off the text before it. */
  lemma {:induction false} SplitAtSeparator(line: string, sep: char, s: string)
    requires sep !in line
    ensures Split(line + [sep] + s, sep) == [line] + Split(s, sep)
    decreases |line|
  {
    var t := line + [sep] + s;
    if line == [] {
      assert t[1..] == s;
    } else {
      assert t[1..] == line[1..] + [sep] + s;
      SplitAtSeparator(line[1..], sep, s);
      assert [line[0]] + line[1..] == line;
    }
  }

  /** Round trip: splitting a join of separator-free parts gives the parts back. */
  lemma {:induction false} SplitJoin(parts: seq<string>, sep: char)
    requires |parts| >= 1
    requires forall i :: 0 <= i < |parts| ==> sep !in parts[i]
    ensures Split(Join([sep], parts), sep) == parts
    decreases |parts|
  {
    if |parts| == 1 {
      SplitNoSeparator(parts[0], sep);
    } else {
      SplitJoin(parts[1..], sep);
      SplitAtSeparator(parts[0], sep, Join([sep], parts[1..]));
      assert parts == [parts[0]] + parts[1..];
    }
  }

  /** Round trip the other way: joining the pieces of any text rebuilds it. */
  lemma {:induction false} JoinSplit(s: string, sep: char)
    ensures Join([sep], Split(s, sep)) == s
    decreases |s|
  {
    if s != [] {
      JoinSplit(s[1..], sep);
      var rest := Split(s[1..], sep);
      if s[0] == sep {
        assert ([[]] + rest)[1..] == rest;
      } else {
        var parts := [[s[0]] + rest[0]] + rest[1..];
        if |rest| > 1 {
          assert parts[1..] == rest[1..];
        }
      }
      assert [s[0]] + s[1..] == s;
    }
  }

  // ---------------------------------------------------------------------
  // Field-list presenter (generate_list_display)
  // ---------------------------------------------------------------------

  const BoldOn: string := "\U{1b}[1m"
  const ResetStyle: string := "\U{1b}[0m"

  /** click.style(text, bold=True): the text between the bold and reset ANSI codes. */
  function Bold(text: string): (styled: string)
    ensures |styled| == |BoldOn| + |text| + |ResetStyle|
    ensures styled[..|BoldOn|] == BoldOn && styled[|styled| - |ResetStyle|..] == ResetStyle
    ensures styled[|BoldOn|..|styled| - |ResetStyle|] == text
    ensures NewLine !in text ==> NewLine !in styled
  {
    BoldOn + text + ResetStyle
  }

  /** One field-list line: the bold attribute name, ": ", then the value. */
  function DisplayLine(attr: string, value: string): string
  {
    Bold(attr) + ": " + value
  }

  /** The generator joined by generate_list_display: one line per attribute, in attribute order. */
  function DisplayLines(obj: RemoteObject, attrs: seq<string>): (lines: seq<string>)
    requires HasAll(obj, attrs)
    ensures |lines| == |attrs|
    ensures forall k :: 0 <= k < |attrs| ==> lines[k] == DisplayLine(attrs[k], obj[attrs[k]])
    decreases |attrs|
  {
    if attrs == [] then [] else [DisplayLine(attrs[0], obj[attrs[0]])] + DisplayLines(obj, attrs[1..])
  }

  /**
   * generate_list_display: the display lines joined by newlines. No
   * attributes give the empty text; otherwise the text starts with the
   * first attribute's line and ends with the last one's.
   */
  function GenerateListDisplay(obj: RemoteObject, attrs: seq<string>): (text: string)
    requires HasAll(obj, attrs)
    ensures attrs == [] ==> text == ""
    ensures |attrs| >= 1 ==> DisplayLine(attrs[0], obj[attrs[0]]) <= text
    ensures |attrs| >= 1 ==>
              var last := DisplayLine(attrs[|attrs| - 1], obj[attrs[|attrs| - 1]]);
              |last| <= |text| && text[|text| - |last|..] == last
  {
    Join([NewLine], DisplayLines(obj, attrs))
  }

  /** No attribute name and no displayed value holds a newline. */
  predicate NoNewlines(obj: RemoteObject, attrs: seq<string>)
    requires HasAll(obj, attrs)
  {
    forall k :: 0 <= k < |attrs| ==> NewLine !in attrs[k] && NewLine !in obj[attrs[k]]
  }

  /**
   * The display has exactly one line per attribute: read back line by
   * line, line k is attribute k's bold name, ": " and its value.
   */
  lemma ListDisplayLines(obj: RemoteObject, attrs: seq<string>)
    requires HasAll(obj, attrs) && NoNewlines(obj, attrs)
    requires |attrs| >= 1
    ensures var lines := Split(GenerateListDisplay(obj, attrs), NewLine);
            && |lines| == |attrs|
            && forall k :: 0 <= k < |attrs| ==> lines[k] == DisplayLine(attrs[k], obj[attrs[k]])
  {
    var lines := DisplayLines(obj, attrs);
    forall i | 0 <= i < |lines|
      ensures NewLine !in lines[i]
    {
      assert lines[i] == BoldOn + attrs[i] + ResetStyle + ": " + obj[attrs[i]];
    }
    SplitJoin(lines, NewLine);
  }

  /**
   * The display's last character is the last value's last character, or
   * the space after the colon when that value is empty: the join adds no
   * trailing newline.
   */
  lemma ListDisplayNoTrailingNewline(obj: RemoteObject, attrs: seq<string>)
    requires HasAll(obj, attrs)
    requires |attrs| >= 1
    ensures var text, last := GenerateListDisplay(obj, attrs), obj[attrs[|attrs| - 1]];
            && |text| > 0
            && text[|text| - 1] == (if last == [] then ' ' else last[|last| - 1])
            && (last == [] || last[|last| - 1] != NewLine ==> text[|text| - 1] != NewLine)
  {
  }

  /** The display depends only on the listed attributes, not on the object's other fields. */
  lemma ListDisplayIgnoresOtherFields(o1: RemoteObject, o2: RemoteObject, attrs: seq<string>)
    requires HasAll(o1, attrs) && HasAll(o2, attrs)
    requires forall j :: 0 <= j < |attrs| ==> o1[attrs[j]] == o2[attrs[j]]
    ensures GenerateListDisplay(o1, attrs) == GenerateListDisplay(o2, attrs)
  {
    assert DisplayLines(o1, attrs) == DisplayLines(o2, attrs);
  }
}
