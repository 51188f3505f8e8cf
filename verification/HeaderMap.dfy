/** The case-insensitive header map of DeepSeerLib/include/DeepSeer/Http/HeaderMap.hpp: an ordered
    map whose keys compare by their lower-case letters, seen as the sequence its iteration yields. */
module HeaderMaps {
  import opened Wrappers

  datatype Header = Header(name: string, value: string)

  // ---------------------------------------------------------------- the ordering

  /** tolower in the C locale. */
  function Lower(c: char): char {
    if 'A' <= c <= 'Z' then (c as int + 32) as char else c
  }

  function LowerAll(s: string): (t: string)
    ensures |t| == |s|
  {
    if s == "" then "" else [Lower(s[0])] + LowerAll(s[1..])
  }

  /** CaseInsensitiveLess: lexicographical comparison of the lower-case letters. */
  predicate Less(a: string, b: string) {
    b != "" && (a == "" || Lower(a[0]) < Lower(b[0]) || (Lower(a[0]) == Lower(b[0]) && Less(a[1..], b[1..])))
  }

  /** Two keys are the same entry of the map when neither is less than the other. */
  predicate Same(a: string, b: string) { !Less(a, b) && !Less(b, a) }

  /** The keys that coincide are exactly those equal up to case. */
  lemma {:induction false} SameIsEqualFolded(a: string, b: string)
    ensures Same(a, b) <==> LowerAll(a) == LowerAll(b)
  {
    if a != "" && b != "" {
      SameIsEqualFolded(a[1..], b[1..]);
      assert LowerAll(a)[0] == Lower(a[0]) && LowerAll(b)[0] == Lower(b[0]);
      assert LowerAll(a)[1..] == LowerAll(a[1..]) && LowerAll(b)[1..] == LowerAll(b[1..]);
    }
  }

  /** The same letter, or the capital and the small form of one ASCII letter. */
  predicate Alike(c: char, d: char) {
    || c == d
    || ('A' <= c <= 'Z' && d as int == c as int + 32)
    || ('A' <= d <= 'Z' && c as int == d as int + 32)
  }

  /** Said without folding: keys coincide exactly if they agree letter by letter up to the case of ASCII
      letters. */
  lemma {:induction false} SameIsAlike(a: string, b: string)
    ensures Same(a, b) <==> |a| == |b| && forall i :: 0 <= i < |a| ==> Alike(a[i], b[i])
  {
    if a != "" && b != "" {
      SameIsAlike(a[1..], b[1..]);
      assert forall i :: 0 < i < |a| ==> a[i] == a[1..][i - 1];
      assert forall i :: 0 < i < |b| ==> b[i] == b[1..][i - 1];
      assert forall i :: 0 <= i < |a| - 1 ==> a[1..][i] == a[i + 1];
      assert forall i :: 0 <= i < |b| - 1 ==> b[1..][i] == b[i + 1];
    }
  }

  /** The letter comes before, capitals counting as small letters. */
  predicate Before(c: char, d: char) {
    (if 'A' <= c <= 'Z' then c as int + 32 else c as int) < (if 'A' <= d <= 'Z' then d as int + 32 else d as int)
  }

  /** The order said outright: after a common beginning, up to case, the lesser key ends or goes on with
      an earlier letter. */
  predicate Precedes(a: string, b: string, k: nat) {
    && k < |b| && k <= |a| && (forall i :: 0 <= i < k ==> Alike(a[i], b[i]))
    && (k == |a| || Before(a[k], b[k]))
  }

  lemma PrecedesTail(a: string, b: string, k: nat)
    requires a != "" && b != "" && Alike(a[0], b[0])
    ensures Precedes(a, b, k + 1) <==> Precedes(a[1..], b[1..], k)
  {
    if Precedes(a[1..], b[1..], k) {
      assert forall i :: 0 < i <= k ==> a[i] == a[1..][i - 1] && b[i] == b[1..][i - 1];
    }
    if Precedes(a, b, k + 1) {
      assert forall i :: 0 <= i < k ==> a[1..][i] == a[i + 1] && b[1..][i] == b[i + 1];
    }
  }

  lemma {:induction false} LessIsLexicographic(a: string, b: string)
    ensures Less(a, b) <==> exists k: nat :: Precedes(a, b, k)
  {
    if b != "" {
      if a == "" || Before(a[0], b[0]) {
        assert Precedes(a, b, 0);
      } else {
        LessIsLexicographic(a[1..], b[1..]);
        if Less(a, b) {
          var k: nat :| Precedes(a[1..], b[1..], k);
          PrecedesTail(a, b, k);
        }
        if k: nat :| Precedes(a, b, k) {
          assert k > 0;
          PrecedesTail(a, b, k - 1);
        }
      }
    }
  }

  lemma {:induction false} LessIrreflexive(a: string)
    ensures !Less(a, a)
  {
    if a != "" { LessIrreflexive(a[1..]); }
  }

  lemma {:induction false} LessTransitive(a: string, b: string, c: string)
    requires Less(a, b) && Less(b, c)
    ensures Less(a, c)
  {
    if a != "" && Lower(a[0]) == Lower(b[0]) && Lower(b[0]) == Lower(c[0]) {
      LessTransitive(a[1..], b[1..], c[1..]);
    }
  }

  /** Comparison does not see case, so it may be made with any spelling of the same key. */
  lemma {:induction false} LessFolded(a: string, b: string, c: string)
    requires Same(a, b)
    ensures Less(a, c) <==> Less(b, c)
    ensures Less(c, a) <==> Less(c, b)
  {
    if a != "" && b != "" && c != "" { LessFolded(a[1..], b[1..], c[1..]); }
  }

  // ---------------------------------------------------------------- the map

  /** What std::map keeps: keys strictly ascending. */
  predicate Sorted(m: seq<Header>) {
    forall i, j :: 0 <= i < j < |m| ==> Less(m[i].name, m[j].name)
  }

  /** headers_[name] = value: a present key keeps its first spelling. */
  function Put(m: seq<Header>, name: string, value: string): seq<Header> {
    if m == [] then [Header(name, value)]
    else if Less(name, m[0].name) then [Header(name, value)] + m
    else if Less(m[0].name, name) then [m[0]] + Put(m[1..], name, value)
    else [Header(m[0].name, value)] + m[1..]
  }

  function Get(m: seq<Header>, name: string): Option<string> {
    if m == [] then None else if Same(m[0].name, name) then Some(m[0].value) else Get(m[1..], name)
  }

  function Drop(m: seq<Header>, name: string): seq<Header> {
    if m == [] then [] else if Same(m[0].name, name) then m[1..] else [m[0]] + Drop(m[1..], name)
  }

  lemma SortedTail(m: seq<Header>)
    requires Sorted(m) && m != []
    ensures Sorted(m[1..]) && forall i :: 0 <= i < |m[1..]| ==> Less(m[0].name, m[1..][i].name)
  {
    assert forall i :: 0 <= i < |m| - 1 ==> m[1..][i] == m[i + 1];
  }

  lemma SortedCons(h: Header, m: seq<Header>)
    requires Sorted(m) && (m != [] ==> Less(h.name, m[0].name))
    ensures Sorted([h] + m)
  {
    forall j | 0 <= j < |m| ensures Less(h.name, m[j].name) {
      if j > 0 { LessTransitive(h.name, m[0].name, m[j].name); }
    }
  }

  /** Setting keeps the order. */
  lemma {:induction false} PutSorted(m: seq<Header>, name: string, value: string)
    requires Sorted(m)
    ensures Sorted(Put(m, name, value))
    ensures Put(m, name, value) != []
    ensures Put(m, name, value)[0].name == name || (m != [] && Put(m, name, value)[0].name == m[0].name)
  {
    if m != [] {
      SortedTail(m);
      if Less(name, m[0].name) {
        SortedCons(Header(name, value), m);
      } else if Less(m[0].name, name) {
        PutSorted(m[1..], name, value);
        SortedCons(m[0], Put(m[1..], name, value));
      } else {
        SortedCons(Header(m[0].name, value), m[1..]);
      }
    }
  }

  /** Setting a present key keeps the spelling under which it was first set, and with it all keys; setting
      a new one adds its spelling and changes no other. */
  lemma {:induction false} PutSpelling(m: seq<Header>, name: string, value: string)
    requires Sorted(m)
    ensures var r := Put(m, name, value);
            if exists i :: 0 <= i < |m| && Same(m[i].name, name)
            then |r| == |m| && forall i :: 0 <= i < |m| ==> r[i] == if Same(m[i].name, name) then Header(m[i].name, value) else m[i]
            else |r| == |m| + 1 && Header(name, value) in r && forall h :: h in m ==> h in r
  {
    if m != [] {
      SortedTail(m);
      var t := m[1..];
      assert forall i :: 0 < i < |m| ==> m[i] == t[i - 1];
      assert forall i :: 0 <= i < |t| ==> t[i] == m[i + 1];
      if Less(name, m[0].name) {
        forall i | 0 <= i < |m| ensures !Same(m[i].name, name) {
          if i > 0 { LessTransitive(name, m[0].name, m[i].name); }
        }
      } else if Less(m[0].name, name) {
        PutSpelling(t, name, value);
        var r := Put(m, name, value);
        assert r == [m[0]] + Put(t, name, value);
        assert (exists i :: 0 <= i < |m| && Same(m[i].name, name)) <==> (exists i :: 0 <= i < |t| && Same(t[i].name, name));
      } else {
        assert Same(m[0].name, name);
        forall i | 0 < i < |m| ensures !Same(m[i].name, name) { LessFolded(m[0].name, name, m[i].name); }
      }
    }
  }

  /** A key less than the first is absent. */
  lemma {:induction false} GetBelow(m: seq<Header>, name: string)
    requires Sorted(m) && (m != [] ==> Less(name, m[0].name))
    ensures Get(m, name) == None
  {
    if m != [] {
      SortedTail(m);
      if m[1..] != [] { LessTransitive(name, m[0].name, m[1..][0].name); }
      GetBelow(m[1..], name);
    }
  }

  /** set then get: the last value under any spelling of the key, and no other key changes. */
  lemma {:induction false} GetPut(m: seq<Header>, name: string, value: string, key: string)
    requires Sorted(m)
    ensures Get(Put(m, name, value), key) == if Same(name, key) then Some(value) else Get(m, key)
  {
    LessIrreflexive(name);
    if m == [] {
      assert [Header(name, value)][1..] == [];
    } else {
      SortedTail(m);
      var h := m[0].name;
      if Less(name, h) {
        assert Put(m, name, value)[1..] == m;
      } else if Less(h, name) {
        GetPut(m[1..], name, value, key);
        assert Put(m, name, value)[1..] == Put(m[1..], name, value);
        if Same(name, key) { LessFolded(name, key, h); }
      } else {
        LessFolded(h, name, key);
      }
    }
  }

  /** remove then get: the key is gone under every spelling, and no other key changes. */
  lemma {:induction false} GetDrop(m: seq<Header>, name: string, key: string)
    requires Sorted(m)
    ensures Get(Drop(m, name), key) == if Same(name, key) then None else Get(m, key)
  {
    if m != [] {
      SortedTail(m);
      var h := m[0].name;
      if Same(h, name) {
        LessFolded(h, name, key);
        if Same(name, key) {
          if m[1..] != [] { LessFolded(h, key, m[1..][0].name); }
          GetBelow(m[1..], key);
        }
      } else {
        GetDrop(m[1..], name, key);
        assert Drop(m, name)[1..] == Drop(m[1..], name);
        if Same(name, key) { LessFolded(name, key, h); }
      }
    }
  }

  lemma {:induction false} DropSorted(m: seq<Header>, name: string)
    requires Sorted(m)
    ensures Sorted(Drop(m, name))
    ensures forall h :: h in Drop(m, name) ==> h in m
  {
    if m != [] && !Same(m[0].name, name) {
      SortedTail(m);
      DropSorted(m[1..], name);
      var d := Drop(m[1..], name);
      if d != [] { assert d[0] in m[1..]; }
      SortedCons(m[0], d);
    }
  }

  /** A key above all others goes to the end. */
  lemma {:induction false} PutAtEnd(m: seq<Header>, name: string, value: string)
    requires Sorted(m) && forall i :: 0 <= i < |m| ==> Less(m[i].name, name)
    ensures Put(m, name, value) == m + [Header(name, value)]
  {
    if m != [] {
      SortedTail(m);
      if Less(name, m[0].name) { LessTransitive(name, m[0].name, name); LessIrreflexive(name); }
      PutAtEnd(m[1..], name, value);
    }
  }

  /** Setting a list of headers one after the other. */
  function PutAll(m: seq<Header>, hs: seq<Header>): seq<Header>
    decreases |hs|
  {
    if hs == [] then m else PutAll(Put(m, hs[0].name, hs[0].value), hs[1..])
  }

  /** Setting the entries of a map in iteration order rebuilds the map. */
  lemma {:induction false} PutAllRebuilds(m: seq<Header>, hs: seq<Header>)
    requires Sorted(m + hs)
    ensures PutAll(m, hs) == m + hs
    decreases |hs|
  {
    if hs == [] {
      assert m + hs == m;
    } else {
      assert forall i :: 0 <= i < |m| ==> (m + hs)[i] == m[i];
      assert (m + hs)[|m|] == hs[0];
      PutAtEnd(m, hs[0].name, hs[0].value);
      assert m + [Header(hs[0].name, hs[0].value)] + hs[1..] == m + hs;
      PutAllRebuilds(m + [hs[0]], hs[1..]);
    }
  }

  /** The map object. */
  class HeaderMap {
    var headers: seq<Header>

    ghost predicate Valid()
      reads this
    {
      Sorted(headers)
    }

    constructor ()
      ensures Valid() && headers == []
    {
      headers := [];
    }

    method SetHeader(name: string, value: string)
      requires Valid()
      modifies this
      ensures Valid() && headers == Put(old(headers), name, value)
      ensures forall key :: Get(headers, key) == if Same(name, key) then Some(value) else Get(old(headers), key)
    {
      PutSorted(headers, name, value);
      forall key ensures Get(Put(headers, name, value), key) == if Same(name, key) then Some(value) else Get(headers, key) {
        GetPut(headers, name, value, key);
      }
      headers := Put(headers, name, value);
    }

    method Remove(name: string)
      requires Valid()
      modifies this
      ensures Valid() && headers == Drop(old(headers), name)
      ensures forall key :: Get(headers, key) == if Same(name, key) then None else Get(old(headers), key)
    {
      DropSorted(headers, name);
      forall key ensures Get(Drop(headers, name), key) == if Same(name, key) then None else Get(headers, key) {
        GetDrop(headers, name, key);
      }
      headers := Drop(headers, name);
    }
  }
}
