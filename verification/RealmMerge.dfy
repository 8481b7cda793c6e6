/**
  Renaming the keys of one realm database so that it can be merged into another.

  Key and reference columns are arrays that each UPDATE statement rewrites row by row.
  Zero in a reference column means "no reference".
 */
module RealmMerge {
  import opened Basics

  type Key = nat
  type Column = array<Key>

  /** Hands out keys used by neither database. */
  class UniqueKeyData {
    const existingKeys1: set<Key>
    const existingKeys2: set<Key>
    var replacedKeys: map<Key, Key>
    var counter: nat

    constructor (keys1: set<Key>, keys2: set<Key>)
      ensures existingKeys1 == keys1 && existingKeys2 == keys2
      ensures replacedKeys == map[] && counter == 0
      ensures Valid()
    {
      existingKeys1, existingKeys2 := keys1, keys2;
      replacedKeys, counter := map[], 0;
    }

    /** Everything up to the counter is taken: an existing key, or one handed out. */
    ghost predicate Valid()
      reads this
    {
      && replacedKeys.Keys <= existingKeys1 * existingKeys2
      && FreshAndInjective(existingKeys1, existingKeys2, replacedKeys)
      && (forall k :: k in replacedKeys.Values ==> 1 <= k <= counter)
      && (forall k :: 1 <= k <= counter ==> k in existingKeys1 + existingKeys2 + replacedKeys.Values)
    }

    /** The new name of a key, and whether it was handed out by this very call. */
    method ReplaceKeyIfNeeded(key: Key) returns (newKey: Key, isNew: bool)
      requires Valid() && key in existingKeys2
      modifies this
      ensures Valid()
      ensures newKey == Renamed(replacedKeys, key)
      ensures isNew <==> key in existingKeys1 && key !in old(replacedKeys)
      ensures replacedKeys == if isNew then old(replacedKeys)[key := newKey] else old(replacedKeys)
      ensures isNew ==> newKey == counter && newKey !in existingKeys1 + existingKeys2 + old(replacedKeys).Values
      ensures key in existingKeys1 ==> key in replacedKeys
      ensures counter <= |existingKeys1| + |existingKeys2|
    {
      CounterBounded();
      if key in replacedKeys {
        return replacedKeys[key], false;
      }
      if key !in existingKeys1 {
        return key, false;
      }
      counter := counter + 1;
      while counter in existingKeys1 || counter in existingKeys2
        invariant replacedKeys == old(replacedKeys) && old(counter) < counter
        invariant forall k :: 1 <= k < counter ==> k in existingKeys1 + existingKeys2 + replacedKeys.Values
        decreases set k | k in existingKeys1 + existingKeys2 && counter <= k
      {
        ghost var above := set k | k in existingKeys1 + existingKeys2 && counter <= k;
        assert counter in above;
        counter := counter + 1;
      }
      ghost var before := replacedKeys;
      replacedKeys := replacedKeys[key := counter];
      forall v | v in replacedKeys.Values
        ensures v == counter || v in before.Values
      {
        var k :| k in replacedKeys && replacedKeys[k] == v;
        if k != key { assert before[k] == v; }
      }
      forall v | v in before.Values
        ensures v in replacedKeys.Values
      {
        var k :| k in before && before[k] == v;
        assert replacedKeys[k] == v;
      }
      assert replacedKeys[key] == counter;
      forall k | k in before
        ensures before[k] != counter
      {
        assert before[k] in before.Values;
      }
      assert replacedKeys.Values == before.Values + {counter};
      forall k | 1 <= k <= counter
        ensures k in existingKeys1 + existingKeys2 + replacedKeys.Values
      {
        if k < counter { assert k in existingKeys1 + existingKeys2 + before.Values; }
      }
      CounterBounded();
      return counter, true;
    }

    /** The counter never passes the number of keys in both databases together. */
    lemma CounterBounded()
      requires Valid()
      ensures counter <= |existingKeys1| + |existingKeys2|
    {
      var upTo := set k: nat | 1 <= k <= counter && k in existingKeys1 + existingKeys2 + replacedKeys.Values;
      Interval(counter, upTo);
      SubsetSize(upTo, existingKeys1 + existingKeys2 + replacedKeys.Values);
      ImageSize(replacedKeys);
      SubsetSize(replacedKeys.Keys, existingKeys1 * existingKeys2);
      assert |existingKeys1 + existingKeys2| + |existingKeys1 * existingKeys2| == |existingKeys1| + |existingKeys2|;
    }
  }

  // ---- Renamings ----------------------------------------------------------------------------

  function Renamed(m: map<Key, Key>, k: Key): Key {
    if k in m then m[k] else k
  }

  /** New keys clash with no existing key, and no two old keys share one. */
  ghost predicate FreshAndInjective(keys1: set<Key>, keys2: set<Key>, m: map<Key, Key>) {
    && (forall k :: k in m ==> m[k] !in keys1 && m[k] !in keys2)
    && (forall a, b :: a in m && b in m && m[a] == m[b] ==> a == b)
  }

  lemma {:induction false} Interval(n: nat, s: set<nat>)
    requires forall k: nat :: k in s <==> 1 <= k <= n
    ensures |s| == n
  {
    if n == 0 {
      assert s == {};
    } else {
      Interval(n - 1, s - {n});
    }
  }

  lemma ImageSize(m: map<Key, Key>)
    ensures |m.Values| <= |m.Keys|
  {
  }

  // ---- Columns and UPDATE statements -----------------------------------------------------------

  function Apply(f: Key -> Key, s: seq<Key>): (r: seq<Key>)
    ensures |r| == |s| && forall i :: 0 <= i < |s| ==> r[i] == f(s[i])
  {
    seq(|s|, i requires 0 <= i < |s| => f(s[i]))
  }

  function RenameAll(m: map<Key, Key>, s: seq<Key>): (r: seq<Key>)
    ensures |r| == |s| && forall i :: 0 <= i < |s| ==> r[i] == Renamed(m, s[i])
  {
    seq(|s|, i requires 0 <= i < |s| => Renamed(m, s[i]))
  }

  ghost predicate Distinct(s: seq<Key>) {
    forall i, j :: 0 <= i < j < |s| ==> s[i] != s[j]
  }

  /** UPDATE column SET column = newKey WHERE column = oldKey */
  method UpdateWhere(col: Column, newKey: Key, oldKey: Key)
    modifies col
    ensures col[..] == RenameAll(map[oldKey := newKey], old(col[..]))
  {
    for i := 0 to col.Length
      invariant forall k :: 0 <= k < i ==> col[k] == Renamed(map[oldKey := newKey], old(col[k]))
      invariant forall k :: i <= k < col.Length ==> col[k] == old(col[k])
    {
      if col[i] == oldKey { col[i] := newKey; }
    }
  }

  /** A key column without duplicates keeps none under a fresh injective renaming of its keys. */
  lemma RenamingKeepsDistinct(keys1: set<Key>, keys2: set<Key>, m: map<Key, Key>, s: seq<Key>)
    requires FreshAndInjective(keys1, keys2, m)
    requires Distinct(s) && forall i :: 0 <= i < |s| ==> s[i] in keys2
    ensures Distinct(RenameAll(m, s))
  {
  }

  // ---- What a merge must achieve -----------------------------------------------------------------

  /**
    The renaming sends the second database's keys to distinct keys that the first one does
    not use, keeps "no reference" as it is, and turns no key into "no reference".
   */
  ghost predicate SafeRenaming(f: Key -> Key, keys1: set<Key>, keys2: set<Key>) {
    && (forall a, b :: a in keys2 && b in keys2 && f(a) == f(b) ==> a == b)
    && (forall a :: a in keys2 ==> f(a) !in keys1 && f(a) != 0)
    && f(0) == 0
  }

  /** References still point where they pointed: equality of keys and references is preserved. */
  lemma ReferencesPreserved(f: Key -> Key, keys1: set<Key>, keys2: set<Key>, x: Key, y: Key)
    requires SafeRenaming(f, keys1, keys2)
    requires x in keys2 + {0} && y in keys2 + {0}
    ensures f(x) == f(y) <==> x == y
  {
  }

  /** No key is lost in the merge: both key sets survive side by side. */
  lemma MergedKeyCount(f: Key -> Key, keys1: set<Key>, keys2: set<Key>)
    requires SafeRenaming(f, keys1, keys2)
    ensures |keys1 + set k | k in keys2 :: f(k)| == |keys1| + |keys2|
  {
    var image := set k | k in keys2 :: f(k);
    InjectiveImageSize(f, keys2);
    assert keys1 !! image;
  }

  lemma {:induction false} InjectiveImageSize(f: Key -> Key, s: set<Key>)
    requires forall a, b :: a in s && b in s && f(a) == f(b) ==> a == b
    ensures |set k | k in s :: f(k)| == |s|
  {
    if s != {} {
      var a :| a in s;
      InjectiveImageSize(f, s - {a});
      assert (set k | k in s :: f(k)) == (set k | k in s - {a} :: f(k)) + {f(a)};
    } else {
      assert (set k | k in s :: f(k)) == {};
    }
  }

  /** The effect of one UPDATE statement on a column. */
  predicate Statement(before: seq<Key>, after: seq<Key>, oldKey: Key, newKey: Key) {
    after == RenameAll(map[oldKey := newKey], before)
  }

  ghost predicate IsStatement(before: seq<Key>, after: seq<Key>) {
    exists oldKey, newKey :: Statement(before, after, oldKey, newKey)
  }

  /** The key column after each statement: from first to last state there is never a duplicate. */
  ghost predicate DuplicateFreeRun(states: seq<seq<Key>>, first: seq<Key>, last: seq<Key>) {
    && |states| > 0 && states[|states| - 1] == last && Distinct(last)
    && if |states| == 1 then last == first
       else IsStatement(states[|states| - 2], last)
            && DuplicateFreeRun(states[..|states| - 1], first, states[|states| - 2])
  }

  lemma OneMoreStatement(states: seq<seq<Key>>, first: seq<Key>, last: seq<Key>, next: seq<Key>, oldKey: Key,
                         newKey: Key)
    requires DuplicateFreeRun(states, first, last) && Distinct(next)
    requires next == RenameAll(map[oldKey := newKey], last)
    ensures DuplicateFreeRun(states + [next], first, next)
  {
    assert Statement(last, next, oldKey, newKey);
    assert (states + [next])[..|states|] == states;
  }

  /** The slow method: one statement per taken key and column, in any order of the keys. */
  method SlowRename(keys: UniqueKeyData, keyColumn: Column, columns: seq<Column>) returns (ghost states: seq<seq<Key>>)
    requires keys.Valid() && keys.replacedKeys == map[]
    requires keyColumn in columns && Distinct(keyColumn[..])
    requires forall k :: k in keyColumn[..] ==> k in keys.existingKeys2
    requires forall i, j :: 0 <= i < j < |columns| ==> columns[i] != columns[j]
    modifies keys, columns
    ensures keys.Valid() && keys.replacedKeys.Keys == keys.existingKeys1 * keys.existingKeys2
    ensures forall c :: c in columns ==> c[..] == RenameAll(keys.replacedKeys, old(c[..]))
    ensures DuplicateFreeRun(states, old(keyColumn[..]), keyColumn[..]) && Distinct(keyColumn[..])
    ensures keys.counter <= |keys.existingKeys1| + |keys.existingKeys2|
  {
    var todo := keys.existingKeys2;
    states := [keyColumn[..]];
    assert DuplicateFreeRun(states, keyColumn[..], keyColumn[..]);
    hide DuplicateFreeRun, Distinct;
    keys.CounterBounded();
    while todo != {}
      invariant keys.Valid() && todo <= keys.existingKeys2
      invariant forall k :: k in keys.existingKeys1 * keys.existingKeys2 && k !in todo ==> k in keys.replacedKeys
      invariant forall k :: k in keys.replacedKeys ==> k !in todo
      invariant forall c :: c in columns ==> c[..] == RenameAll(keys.replacedKeys, old(c[..]))
      invariant DuplicateFreeRun(states, old(keyColumn[..]), keyColumn[..]) && Distinct(keyColumn[..])
      invariant keys.counter <= |keys.existingKeys1| + |keys.existingKeys2|
      decreases todo
    {
      var key :| key in todo;
      ghost var before := keys.replacedKeys;
      var newKey, isNew := keys.ReplaceKeyIfNeeded(key);
      if isNew {
        ghost var beforeStatement := keyColumn[..];
        UpdateColumns(columns, newKey, key);
        forall c | c in columns
          ensures c[..] == RenameAll(keys.replacedKeys, old(c[..]))
        {
          StatementExtends(keys.existingKeys1, keys.existingKeys2, before, key, newKey, old(c[..]));
        }
        RenamingKeepsDistinct(keys.existingKeys1, keys.existingKeys2, keys.replacedKeys, old(keyColumn[..]));
        OneMoreStatement(states, old(keyColumn[..]), beforeStatement, keyColumn[..], key, newKey);
        states := states + [keyColumn[..]];
      }
      todo := todo - {key};
    }
  }

  /** One more statement extends the renaming by one key, because nothing renamed matches it. */
  lemma StatementExtends(keys1: set<Key>, keys2: set<Key>, m: map<Key, Key>, oldKey: Key, newKey: Key, s: seq<Key>)
    requires FreshAndInjective(keys1, keys2, m) && oldKey !in m && oldKey in keys2
    ensures RenameAll(map[oldKey := newKey], RenameAll(m, s)) == RenameAll(m[oldKey := newKey], s)
  {
  }

  method UpdateColumns(columns: seq<Column>, newKey: Key, oldKey: Key)
    requires forall i, j :: 0 <= i < j < |columns| ==> columns[i] != columns[j]
    modifies columns
    ensures forall c :: c in columns ==> c[..] == RenameAll(map[oldKey := newKey], old(c[..]))
  {
    for i := 0 to |columns|
      invariant forall k :: 0 <= k < i ==> columns[k][..] == RenameAll(map[oldKey := newKey], old(columns[k][..]))
      invariant forall k :: i <= k < |columns| ==> columns[k][..] == old(columns[k][..])
    {
      UpdateWhere(columns[i], newKey, oldKey);
    }
  }

  /** The row numbers of a column. */
  function Rows(n: nat): (r: set<nat>)
    ensures forall k: nat :: k in r <==> k < n
  {
    if n == 0 then {} else Rows(n - 1) + {n - 1}
  }

  lemma {:induction false} RowCount(n: nat)
    ensures |Rows(n)| == n
  {
    if n > 0 { RowCount(n - 1); }
  }

  function Shifted(k: Key, shift: nat): Key {
    if k == 0 then 0 else k + shift
  }

  /** One row more of the column has been shifted, unless it is a guarded zero. */
  ghost predicate IsRowShift(before: seq<Key>, after: seq<Key>, shift: nat) {
    exists i :: 0 <= i < |before| && after == before[i := Shifted(before[i], shift)]
  }

  /** The column after each row: from first to last state there is never a duplicate. */
  ghost predicate DuplicateFreeShift(states: seq<seq<Key>>, first: seq<Key>, last: seq<Key>, shift: nat) {
    && |states| > 0 && states[|states| - 1] == last && Distinct(last)
    && if |states| == 1 then last == first
       else IsRowShift(states[|states| - 2], last, shift)
            && DuplicateFreeShift(states[..|states| - 1], first, states[|states| - 2], shift)
  }

  lemma OneMoreRow(states: seq<seq<Key>>, first: seq<Key>, last: seq<Key>, next: seq<Key>, shift: nat, i: nat)
    requires DuplicateFreeShift(states, first, last, shift) && Distinct(next)
    requires i < |last| && next == last[i := Shifted(last[i], shift)]
    ensures DuplicateFreeShift(states + [next], first, next, shift)
  {
    assert IsRowShift(last, next, shift);
    assert (states + [next])[..|states|] == states;
  }

  /**
    UPDATE column SET column = column + shift [WHERE column != 0], rows taken in any order.
    A unique column whose keys do not exceed the shift is free of duplicates after every row.
   */
  method ShiftColumn(col: Column, shift: nat, guarded: bool, ghost unique: bool) returns (ghost states: seq<seq<Key>>)
    requires !guarded ==> forall k :: k in col[..] ==> k != 0
    requires unique ==> Distinct(col[..]) && forall k :: k in col[..] ==> 1 <= k <= shift
    modifies col
    ensures forall i :: 0 <= i < col.Length ==> col[i] == Shifted(old(col[i]), shift)
    ensures |states| == col.Length + 1
    ensures unique ==> DuplicateFreeShift(states, old(col[..]), col[..], shift) && Distinct(col[..])
  {
    var todo := Rows(col.Length);
    states := [col[..]];
    RowCount(col.Length);
    assert unique ==> DuplicateFreeShift(states, col[..], col[..], shift);
    hide DuplicateFreeShift, Distinct;
    while todo != {}
      invariant todo <= Rows(col.Length) && |states| + |todo| == col.Length + 1
      invariant PartlyShifted(old(col[..]), col[..], todo, shift)
      invariant unique ==> DuplicateFreeShift(states, old(col[..]), col[..], shift) && Distinct(col[..])
      decreases todo
    {
      var i :| i in todo;
      ghost var before := col[..];
      assert before[i] == old(col[..])[i] && old(col[..])[i] in old(col[..]);
      ShiftRow(col, i, shift, guarded);
      todo := todo - {i};
      if unique {
        PartlyIsDistinct(old(col[..]), col[..], todo, shift);
        OneMoreRow(states, old(col[..]), before, col[..], shift, i);
      }
      states := states + [col[..]];
    }
  }

  method ShiftRow(col: Column, i: nat, shift: nat, guarded: bool)
    requires i < col.Length && (guarded || col[i] != 0)
    modifies col
    ensures col[..] == old(col[..])[i := Shifted(old(col[i]), shift)]
  {
    if !guarded || col[i] != 0 { col[i] := col[i] + shift; }
  }

  /** All rows but some have been shifted. */
  ghost predicate PartlyShifted(first: seq<Key>, now: seq<Key>, todo: set<nat>, shift: nat) {
    && |now| == |first|
    && forall i :: 0 <= i < |first| ==> now[i] == if i in todo then first[i] else Shifted(first[i], shift)
  }

  lemma PartlyIsDistinct(first: seq<Key>, now: seq<Key>, todo: set<nat>, shift: nat)
    requires PartlyShifted(first, now, todo, shift)
    requires Distinct(first) && forall k :: k in first ==> 1 <= k <= shift
    ensures Distinct(now)
  {
    assert forall i :: 0 <= i < |first| ==> first[i] in first;
  }

  /** The key column at every moment of either method: there is never a duplicate. */
  ghost predicate DuplicateFreeMerge(states: seq<seq<Key>>, first: seq<Key>, last: seq<Key>) {
    DuplicateFreeRun(states, first, last) || exists shift: nat :: DuplicateFreeShift(states, first, last, shift)
  }

  /** A column holding keys of the table or references to it. */
  datatype KeyColumn = KeyColumn(cells: Column, guarded: bool)

  /**
    Makes the keys of database 2 disjoint from those of database 1 in every column. The first
    column is the table's own key. Columns updated without a guard hold no zero. The ghost
    results are the renaming that was carried out, for the keys and for every reference, and the
    states of the key column on the way.
   */
  method MergeKeys(keys1: set<Key>, keys2: set<Key>, columns: seq<KeyColumn>)
    returns (ok: bool, ghost f: Key -> Key, ghost states: seq<seq<Key>>)
    requires 0 !in keys1 && 0 !in keys2
    requires |columns| > 0 && Distinct(columns[0].cells[..])
    requires forall k :: k in keys2 <==> k in columns[0].cells[..]
    requires forall i, j :: 0 <= i < j < |columns| ==> columns[i].cells != columns[j].cells
    requires forall c :: c in columns && !c.guarded ==> 0 !in c.cells[..]
    modifies set c | c in columns :: c.cells
    ensures ok <==> |keys1| + |keys2| <= INT32_MAX
    ensures !ok ==> forall c :: c in columns ==> c.cells[..] == old(c.cells[..])
    ensures ok ==> SafeRenaming(f, keys1, keys2)
    ensures ok ==> forall c :: c in columns ==> c.cells[..] == Apply(f, old(c.cells[..]))
    ensures DuplicateFreeMerge(states, old(columns[0].cells[..]), columns[0].cells[..])
    ensures ok ==> Distinct(columns[0].cells[..])
    ensures ok ==> forall k :: k in keys2 && f(k) != k ==> f(k) <= INT32_MAX
  {
    f, states := k => k, [columns[0].cells[..]];
    assert DuplicateFreeRun(states, columns[0].cells[..], columns[0].cells[..]);
    if INT32_MAX < |keys1| + |keys2| {
      return false, f, states;
    }
    if keys1 == {} || keys2 == {} {
      return true, f, states;
    }
    var max1 := MaxKey(keys1);
    var max2 := MaxKey(keys2);
    var shift := if max1 < max2 then max2 else max1;
    if INT32_MAX > shift + max2 {
      f := k => Shifted(k, shift);
      states := FastShift(columns, shift);
    } else {
      f, states := RenameSlowly(keys1, keys2, columns);
    }
    return true, f, states;
  }

  /** The slow method, with a fresh key for every key that both databases use. */
  method RenameSlowly(keys1: set<Key>, keys2: set<Key>, columns: seq<KeyColumn>)
    returns (ghost f: Key -> Key, ghost states: seq<seq<Key>>)
    requires 0 !in keys1 && 0 !in keys2 && |keys1| + |keys2| <= INT32_MAX
    requires |columns| > 0 && Distinct(columns[0].cells[..])
    requires forall k :: k in keys2 <==> k in columns[0].cells[..]
    requires forall i, j :: 0 <= i < j < |columns| ==> columns[i].cells != columns[j].cells
    modifies set c | c in columns :: c.cells
    ensures SafeRenaming(f, keys1, keys2)
    ensures forall c :: c in columns ==> c.cells[..] == Apply(f, old(c.cells[..]))
    ensures DuplicateFreeRun(states, old(columns[0].cells[..]), columns[0].cells[..]) && Distinct(columns[0].cells[..])
    ensures forall k :: k in keys2 && f(k) != k ==> f(k) <= INT32_MAX
  {
    var data := new UniqueKeyData(keys1, keys2);
    var cells := seq(|columns|, i requires 0 <= i < |columns| => columns[i].cells);
    assert cells[0] == columns[0].cells;
    states := SlowRename(data, columns[0].cells, cells);
    ghost var m := data.replacedKeys;
    f := k => Renamed(m, k);
    forall c | c in columns
      ensures c.cells[..] == Apply(f, old(c.cells[..]))
    {
      var i :| 0 <= i < |columns| && columns[i] == c;
      assert cells[i] == c.cells;
    }
    assert forall k :: k in m ==> m[k] in m.Values;
  }

  method MaxKey(keys: set<Key>) returns (m: Key)
    requires keys != {}
    ensures m in keys && forall k :: k in keys ==> k <= m
  {
    var todo := keys;
    m := 0;
    while todo != {}
      invariant todo <= keys && (todo == keys || m in keys)
      invariant forall k :: k in keys && k !in todo ==> k <= m
      decreases todo
    {
      var k :| k in todo;
      if todo == keys || m < k { m := k; }
      todo := todo - {k};
    }
  }

  /** The fast method: one statement per column. */
  method FastShift(columns: seq<KeyColumn>, shift: nat) returns (ghost states: seq<seq<Key>>)
    requires |columns| > 0 && Distinct(columns[0].cells[..])
    requires forall k :: k in columns[0].cells[..] ==> 1 <= k <= shift
    requires forall i, j :: 0 <= i < j < |columns| ==> columns[i].cells != columns[j].cells
    requires forall c :: c in columns && !c.guarded ==> 0 !in c.cells[..]
    modifies set c | c in columns :: c.cells
    ensures forall i :: 0 <= i < |columns| ==>
              columns[i].cells[..] == Apply(k => Shifted(k, shift), old(columns[i].cells[..]))
    ensures DuplicateFreeShift(states, old(columns[0].cells[..]), columns[0].cells[..], shift)
    ensures Distinct(columns[0].cells[..])
  {
    hide DuplicateFreeShift;
    states := ShiftColumn(columns[0].cells, shift, columns[0].guarded, true);
    assert columns[0].cells[..] == Apply(k => Shifted(k, shift), old(columns[0].cells[..]));
    for i := 1 to |columns|
      invariant forall j :: 0 <= j < i ==>
                  columns[j].cells[..] == Apply(k => Shifted(k, shift), old(columns[j].cells[..]))
      invariant forall j :: i <= j < |columns| ==> columns[j].cells[..] == old(columns[j].cells[..])
      invariant DuplicateFreeShift(states, old(columns[0].cells[..]), columns[0].cells[..], shift)
      invariant Distinct(columns[0].cells[..])
    {
      assert columns[i] in columns;
      ghost var _ := ShiftColumn(columns[i].cells, shift, columns[i].guarded, false);
      assert columns[i].cells[..] == Apply(k => Shifted(k, shift), old(columns[i].cells[..]));
    }
  }
}
