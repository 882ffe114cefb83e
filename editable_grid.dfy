/**
 * The row editor of the admin screen (src/components/EditableGrid.tsx): infer the columns,
 * label them, and build the new row list for a cell edit, an added row or a removed row.
 * Every handler builds a new list and hands it on; nothing is changed in place.
 */
module EditableGrid {
  import opened Wrappers
  import opened Text
  import opened Seqs

  /** A row object: its own keys in insertion order, each with its value. */
  type Row<V> = seq<(string, V)>

  /** `Object.keys(row)`. */
  function Keys<V>(r: Row<V>): (ks: seq<string>)
    ensures |ks| == |r|
    ensures forall i :: 0 <= i < |r| ==> ks[i] == r[i].0
  {
    seq(|r|, i requires 0 <= i < |r| => r[i].0)
  }

  /** An object never holds a key twice. */
  predicate DistinctKeys<V>(r: Row<V>)
  {
    forall i, j :: 0 <= i < j < |r| ==> r[i].0 != r[j].0
  }

  /** Where key `k` sits in the row, if anywhere. */
  function Find<V>(r: Row<V>, k: string): (o: Option<nat>)
    ensures o.Some? ==> o.value < |r| && r[o.value].0 == k && forall j :: 0 <= j < o.value ==> r[j].0 != k
    ensures o.None? ==> forall j :: 0 <= j < |r| ==> r[j].0 != k
  {
    if r == [] then None
    else if r[0].0 == k then Some(0)
    else match Find(r[1..], k)
      case None => None
      case Some(i) => Some(i + 1)
  }

  /** `row[k]`, `None` standing for undefined: the value of the first pair with key `k`. */
  function Get<V>(r: Row<V>, k: string): (o: Option<V>)
    ensures o.None? <==> forall j :: 0 <= j < |r| ==> r[j].0 != k
    ensures o.Some? ==> exists i :: 0 <= i < |r| && r[i] == (k, o.value) && forall j :: 0 <= j < i ==> r[j].0 != k
  {
    match Find(r, k)
    case None => None
    case Some(i) => Some(r[i].1)
  }

  /** Finding a key is determined by where it first occurs. */
  lemma FindAt<V>(r: Row<V>, k: string, i: nat)
    requires i < |r| && r[i].0 == k && forall j :: 0 <= j < i ==> r[j].0 != k
    ensures Find(r, k) == Some(i)
  {
  }

  lemma UpdateKeepsOthers<V>(r: Row<V>, k: string, v: V, i: nat)
    requires Find(r, k) == Some(i)
    ensures Find(r[i := (k, v)], k) == Some(i)
    ensures forall k' :: k' != k ==> Get(r[i := (k, v)], k') == Get(r, k')
  {
    var r' := r[i := (k, v)];
    FindAt(r', k, i);
    forall k' | k' != k
      ensures Get(r', k') == Get(r, k')
    {
      match Find(r, k')
      case None =>
      case Some(j) => FindAt(r', k', j);
    }
  }

  lemma AppendKeepsOthers<V>(r: Row<V>, k: string, v: V)
    requires Find(r, k).None?
    ensures Find(r + [(k, v)], k) == Some(|r|)
    ensures forall k' :: k' != k ==> Get(r + [(k, v)], k') == Get(r, k')
  {
    var r' := r + [(k, v)];
    FindAt(r', k, |r|);
    forall k' | k' != k
      ensures Get(r', k') == Get(r, k')
    {
      match Find(r, k')
      case None =>
      case Some(j) => FindAt(r', k', j);
    }
  }

  /** `{ ...row, [k]: v }`: an existing key keeps its place with the new value, a new key goes last. */
  function Set<V>(r: Row<V>, k: string, v: V): (r': Row<V>)
    ensures Get(r', k) == Some(v)
    ensures forall k' :: k' != k ==> Get(r', k') == Get(r, k')
    ensures Find(r, k).Some? ==> Keys(r') == Keys(r)
    ensures Find(r, k).None? ==> Keys(r') == Keys(r) + [k]
    ensures DistinctKeys(r) ==> DistinctKeys(r')
  {
    match Find(r, k)
    case Some(i) =>
      UpdateKeepsOthers(r, k, v, i);
      r[i := (k, v)]
    case None =>
      AppendKeepsOthers(r, k, v);
      r + [(k, v)]
  }

  /**
   * `columns || (value[0] ? Object.keys(value[0]) : [])`. Any given list wins, an empty one
   * too (an array is truthy); without one the first row's keys are the columns.
   */
  function InferredColumns<V>(columns: Option<seq<string>>, value: seq<Row<V>>): (r: seq<string>)
    ensures columns.Some? ==> r == columns.value
    ensures columns.None? && value != [] ==> r == Keys(value[0])
    ensures columns.None? && value == [] ==> r == []
  {
    if columns.Some? then columns.value
    else if value != [] then Keys(value[0])
    else []
  }

  /** `handleCellChange(rowIdx, col, cellValue)`: the list `value.map` builds. */
  function CellChange<V>(value: seq<Row<V>>, rowIdx: int, col: string, cell: V): (r: seq<Row<V>>)
    ensures |r| == |value|
    ensures forall i :: 0 <= i < |value| && i != rowIdx ==> r[i] == value[i]
    ensures 0 <= rowIdx < |value| ==> r[rowIdx] == Set(value[rowIdx], col, cell)
    ensures !(0 <= rowIdx < |value|) ==> r == value
  {
    seq(|value|, idx requires 0 <= idx < |value| => if idx == rowIdx then Set(value[idx], col, cell) else value[idx])
  }

  /** A cell edit changes that one cell: every other key of the row, and every other row, reads as before. */
  lemma CellChangeSetsOneCell<V>(value: seq<Row<V>>, rowIdx: int, col: string, cell: V, i: nat, k: string)
    requires i < |value|
    ensures Get(CellChange(value, rowIdx, col, cell)[i], k) == if i == rowIdx && k == col then Some(cell) else Get(value[i], k)
  {
  }

  /** The row `inferredColumns.reduce((acc, col) => ({ ...acc, [col]: '' }), {})`, `blank` standing for ''. */
  function EmptyRow<V>(columns: seq<string>, blank: V): (r: Row<V>)
    ensures DistinctKeys(r)
    ensures forall i :: 0 <= i < |r| ==> r[i].0 in columns
    ensures forall k :: Get(r, k) == if k in columns then Some(blank) else None
    decreases |columns|
  {
    if columns == [] then []
    else
      var init := columns[..|columns| - 1];
      var last := columns[|columns| - 1];
      assert columns == init + [last];
      Set(EmptyRow(init, blank), last, blank)
  }

  /** `handleAddRow`: the list with one more row, every inferred column of it blank. */
  function AddRow<V>(value: seq<Row<V>>, columns: seq<string>, blank: V): (r: seq<Row<V>>)
    ensures |r| == |value| + 1
    ensures r[..|value|] == value
    ensures forall k :: Get(r[|value|], k) == if k in columns then Some(blank) else None
  {
    value + [EmptyRow(columns, blank)]
  }

  /** `value.filter((_, idx) => idx !== rowIdx)`: one element fewer exactly when the index is inside the list, and nothing new. */
  function DropAt<V>(value: seq<V>, rowIdx: int): (r: seq<V>)
    ensures |r| == if 0 <= rowIdx < |value| then |value| - 1 else |value|
    ensures forall x :: x in r ==> x in value
  {
    if value == [] then [] else (if rowIdx == 0 then [] else [value[0]]) + DropAt(value[1..], rowIdx - 1)
  }

  /** `handleRemoveRow(rowIdx)`: it deletes exactly row `rowIdx` and keeps the order; an index outside the list removes nothing. */
  function RemoveRow<V>(value: seq<Row<V>>, rowIdx: int): (r: seq<Row<V>>)
    ensures 0 <= rowIdx < |value| ==> r == value[..rowIdx] + value[rowIdx + 1..]
    ensures !(0 <= rowIdx < |value|) ==> r == value
  {
    if 0 <= rowIdx < |value| then
      DropAtInside(value, rowIdx);
      DropAt(value, rowIdx)
    else
      DropAtOutside(value, rowIdx);
      DropAt(value, rowIdx)
  }

  lemma {:induction false} DropAtOutside<V>(value: seq<V>, rowIdx: int)
    requires !(0 <= rowIdx < |value|)
    ensures DropAt(value, rowIdx) == value
  {
    if value != [] {
      DropAtOutside(value[1..], rowIdx - 1);
      assert value == [value[0]] + value[1..];
    }
  }

  lemma {:induction false} DropAtInside<V>(value: seq<V>, rowIdx: int)
    requires 0 <= rowIdx < |value|
    ensures DropAt(value, rowIdx) == value[..rowIdx] + value[rowIdx + 1..]
  {
    var tail := value[1..];
    if rowIdx == 0 {
      DropAtOutside(tail, -1);
      assert DropAt(value, 0) == [] + DropAt(tail, -1);
      assert value[..0] + value[1..] == tail;
    } else {
      DropAtInside(tail, rowIdx - 1);
      assert DropAt(value, rowIdx) == [value[0]] + DropAt(tail, rowIdx - 1);
      assert value[..rowIdx] == [value[0]] + tail[..rowIdx - 1];
      assert value[rowIdx + 1..] == tail[rowIdx..];
      assert [value[0]] + (tail[..rowIdx - 1] + tail[rowIdx..]) == ([value[0]] + tail[..rowIdx - 1]) + tail[rowIdx..];
    }
  }

  /** Adding a row and removing it again gives the list back. */
  lemma RemoveAddedRow<V>(value: seq<Row<V>>, columns: seq<string>, blank: V)
    ensures RemoveRow(AddRow(value, columns, blank), |value|) == value
  {
    var r := AddRow(value, columns, blank);
    assert r[..|value|] == value;
  }

  /** A `schema` entry `{ name, label }`; `label` is a keyword here, hence `caption`. */
  datatype Field = Field(name: string, caption: string)

  /** `schema.find(f => f.name === col)`, as the index of the entry it returns. */
  function FindField(schema: seq<Field>, col: string): (o: Option<nat>)
    ensures o.Some? ==> o.value < |schema| && schema[o.value].name == col && forall j :: 0 <= j < o.value ==> schema[j].name != col
    ensures o.None? ==> forall j :: 0 <= j < |schema| ==> schema[j].name != col
  {
    if schema == [] then None
    else if schema[0].name == col then Some(0)
    else match FindField(schema[1..], col)
      case None => None
      case Some(i) => Some(i + 1)
  }

  /** `.` of a JavaScript regular expression matches any character but a line terminator. */
  predicate LineTerminator(c: char)
  {
    c == '\n' || c == '\r' || c == '\U{2028}' || c == '\U{2029}'
  }

  /** `col.replace(/([A-Z])/g, ' $1')`. */
  function SpaceBeforeCaps(s: string): (r: string)
    ensures |r| >= |s|
  {
    if s == [] then [] else (if IsUpper(s[0]) then [' ', s[0]] else [s[0]]) + SpaceBeforeCaps(s[1..])
  }

  /** `.replace(/^./, s => s.toUpperCase())`. */
  function Capitalize(s: string): (r: string)
    ensures |r| == |s|
    ensures |s| > 0 ==> r[1..] == s[1..]
    ensures |s| > 0 && !LineTerminator(s[0]) ==> r[0] == UpperChar(s[0])
    ensures |s| > 0 && LineTerminator(s[0]) ==> r == s
  {
    if s == [] || LineTerminator(s[0]) then s else [UpperChar(s[0])] + s[1..]
  }

  /** The prettified name: spaced before capitals, then capitalised; a name without capitals is only capitalised. */
  function Prettify(col: string): (r: string)
    ensures |col| <= |r|
    ensures NoCaps(col) ==> r == Capitalize(col)
  {
    assert NoCaps(col) ==> SpaceBeforeCaps(col) == col by {
      if NoCaps(col) {
        SpaceBeforeCapsNoCaps(col);
      }
    }
    Capitalize(SpaceBeforeCaps(col))
  }

  /** The schema names `col` and the first entry so named has a non-empty label. */
  predicate SchemaLabels(schema: Option<seq<Field>>, col: string)
  {
    schema.Some? && FindField(schema.value, col).Some? && schema.value[FindField(schema.value, col).value].caption != ""
  }

  /** `getColLabel(col)`: the label of the first schema entry named `col` when it is non-empty, else the prettified name. */
  function ColLabel(schema: Option<seq<Field>>, col: string): (r: string)
    ensures SchemaLabels(schema, col) ==> r == schema.value[FindField(schema.value, col).value].caption
    ensures !SchemaLabels(schema, col) ==> r == Prettify(col)
  {
    if SchemaLabels(schema, col) then schema.value[FindField(schema.value, col).value].caption
    else Prettify(col)
  }

  /**
   * Only the first entry named `col` is consulted: with a non-empty label it is the label,
   * with an empty one the name is prettified, whatever later entries say.
   */
  lemma ColLabelFirstEntry(schema: seq<Field>, col: string, i: nat)
    requires i < |schema| && schema[i].name == col && forall j :: 0 <= j < i ==> schema[j].name != col
    ensures schema[i].caption != "" ==> ColLabel(Some(schema), col) == schema[i].caption
    ensures schema[i].caption == "" ==> ColLabel(Some(schema), col) == Prettify(col)
  {
    assert FindField(schema, col) == Some(i);
  }

  /** Without a schema entry for `col`, the name is prettified. */
  lemma ColLabelUnnamed(schema: Option<seq<Field>>, col: string)
    requires schema.None? || forall j :: 0 <= j < |schema.value| ==> schema.value[j].name != col
    ensures ColLabel(schema, col) == Prettify(col)
  {
  }

  /** Taking out every space that stands right before a capital letter. */
  function DropSpacesBeforeCaps(s: string): string
  {
    if |s| >= 2 && s[0] == ' ' && IsUpper(s[1]) then [s[1]] + DropSpacesBeforeCaps(s[2..])
    else if s == [] then []
    else [s[0]] + DropSpacesBeforeCaps(s[1..])
  }

  /** Every capital of the spaced name comes right after a space and never first. */
  lemma {:induction false} CapsArePreceded(s: string, i: nat)
    requires i < |SpaceBeforeCaps(s)| && IsUpper(SpaceBeforeCaps(s)[i])
    ensures i > 0 && SpaceBeforeCaps(s)[i - 1] == ' '
  {
    if s != [] {
      var head: string := if IsUpper(s[0]) then [' ', s[0]] else [s[0]];
      var rest := SpaceBeforeCaps(s[1..]);
      assert SpaceBeforeCaps(s) == head + rest;
      if i >= |head| {
        CapsArePreceded(s[1..], i - |head|);
      }
    }
  }

  lemma {:induction false} SpaceBeforeCapsFirst(s: string)
    requires s != []
    ensures IsUpper(s[0]) ==> SpaceBeforeCaps(s)[0] == ' '
    ensures !IsUpper(s[0]) ==> SpaceBeforeCaps(s)[0] == s[0]
    ensures SpaceBeforeCaps(s)[0] == ' ' || !IsUpper(SpaceBeforeCaps(s)[0])
  {
  }

  /** The inserted spaces are exactly the ones before capitals: taking those out gives the name back. */
  lemma {:induction false} SpaceBeforeCapsRoundTrip(s: string)
    ensures DropSpacesBeforeCaps(SpaceBeforeCaps(s)) == s
  {
    if s != [] {
      var rest := SpaceBeforeCaps(s[1..]);
      SpaceBeforeCapsRoundTrip(s[1..]);
      if IsUpper(s[0]) {
        assert SpaceBeforeCaps(s) == [' ', s[0]] + rest;
        assert SpaceBeforeCaps(s)[2..] == rest;
      } else {
        assert SpaceBeforeCaps(s) == [s[0]] + rest;
        if s[0] == ' ' && |rest| >= 1 {
          SpaceBeforeCapsFirst(s[1..]);
          assert !IsUpper(rest[0]);
        }
        assert SpaceBeforeCaps(s)[1..] == rest;
      }
      assert s == [s[0]] + s[1..];
    }
  }

  /** The spacing is applied character by character, so it distributes over concatenation. */
  lemma {:induction false} SpaceBeforeCapsAppend(a: string, b: string)
    ensures SpaceBeforeCaps(a + b) == SpaceBeforeCaps(a) + SpaceBeforeCaps(b)
  {
    if a != [] {
      var head: string := if IsUpper(a[0]) then [' ', a[0]] else [a[0]];
      assert (a + b)[0] == a[0] && (a + b)[1..] == a[1..] + b;
      SpaceBeforeCapsAppend(a[1..], b);
      ConcatAssoc(head, SpaceBeforeCaps(a[1..]), SpaceBeforeCaps(b));
    } else {
      assert a + b == b;
    }
  }

  /** A name without capitals gets no space. */
  lemma {:induction false} SpaceBeforeCapsNoCaps(s: string)
    requires NoCaps(s)
    ensures SpaceBeforeCaps(s) == s
  {
    if s != [] {
      SpaceBeforeCapsNoCaps(s[1..]);
      assert s == [s[0]] + s[1..];
    }
  }

  /** A name without capitals has no capital letter at any position. */
  predicate NoCaps(s: string)
  {
    forall i :: 0 <= i < |s| ==> !IsUpper(s[i])
  }

  /** The space goes before the capital alone. */
  lemma SpacedCamelCase(a: string, c: char, b: string)
    requires NoCaps(a) && NoCaps(b) && IsUpper(c)
    ensures SpaceBeforeCaps(a + [c] + b) == a + ([' ', c] + b)
  {
    SpaceBeforeCapsNoCaps(a);
    SpaceBeforeCapsNoCaps(b);
    SpaceBeforeCapsAppend([c], b);
    assert a + [c] + b == a + ([c] + b);
    SpaceBeforeCapsAppend(a, [c] + b);
  }

  /**
   * A camel-case name of two words gets a space before the second word's capital and a
   * capital first letter: `minAmount` becomes `Min Amount`.
   */
  lemma PrettifyCamelCase(a: string, c: char, b: string)
    requires a != [] && !LineTerminator(a[0]) && NoCaps(a) && NoCaps(b) && IsUpper(c)
    ensures Prettify(a + [c] + b) == [UpperChar(a[0])] + a[1..] + [' ', c] + b
  {
    var spaced := a + ([' ', c] + b);
    SpacedCamelCase(a, c, b);
    assert spaced[0] == a[0] && spaced[1..] == a[1..] + [' ', c] + b;
  }
}
