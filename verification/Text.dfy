/** Strings as the C++ standard library sees them: lexicographic order (`std::string`'s `operator<`),
    `find`, `rfind`, and the ordered association lists that stand for `std::map<std::string, V>`. */
module Text {

  datatype Option<+T> = None | Some(value: T)

  // ---------------------------------------------------------------- order

  /** `a < b` on std::string: compare the first differing character, a proper prefix comes first. */
  predicate Less(a: string, b: string) {
    if b == [] then false
    else if a == [] then true
    else a[0] < b[0] || (a[0] == b[0] && Less(a[1..], b[1..]))
  }

  lemma {:induction false} LessIrreflexive(a: string)
    ensures !Less(a, a)
  {
    if a != [] { LessIrreflexive(a[1..]); }
  }

  lemma {:induction false} LessTransitive(a: string, b: string, c: string)
    requires Less(a, b) && Less(b, c)
    ensures Less(a, c)
  {
    if a != [] && a[0] == b[0] && b[0] == c[0] { LessTransitive(a[1..], b[1..], c[1..]); }
  }

  lemma {:induction false} LessTotal(a: string, b: string)
    ensures Less(a, b) || a == b || Less(b, a)
  {
    if a != [] && b != [] && a[0] == b[0] {
      LessTotal(a[1..], b[1..]);
      assert a == [a[0]] + a[1..] && b == [b[0]] + b[1..];
    }
  }

  predicate Ascending(keys: seq<string>) {
    forall i, j :: 0 <= i < j < |keys| ==> Less(keys[i], keys[j])
  }

  predicate Descending(keys: seq<string>) {
    forall i, j :: 0 <= i < j < |keys| ==> Less(keys[j], keys[i])
  }

  function Reverse<T>(s: seq<T>): (r: seq<T>)
    ensures |r| == |s|
    ensures forall i :: 0 <= i < |s| ==> r[i] == s[|s| - 1 - i]
  {
    if s == [] then [] else [s[|s| - 1]] + Reverse(s[..|s| - 1])
  }

  // ---------------------------------------------------------------- searching

  /** `find(c, from)`: the first position at or after `from` holding `c`; `|s|` stands for npos. */
  function FindChar(s: string, c: char, from: nat): (p: nat)
    requires from <= |s|
    ensures from <= p <= |s|
    ensures p < |s| ==> s[p] == c
    ensures forall i :: from <= i < p ==> s[i] != c
    decreases |s| - from
  {
    if from == |s| || s[from] == c then from else FindChar(s, c, from + 1)
  }

  /** `rfind(c)`: the last position holding `c`, or -1 for npos. */
  function FindLastChar(s: string, c: char): (p: int)
    ensures -1 <= p < |s|
    ensures p >= 0 ==> s[p] == c
    ensures forall i :: p < i < |s| ==> s[i] != c
  {
    if s == [] then -1
    else if s[|s| - 1] == c then |s| - 1
    else FindLastChar(s[..|s| - 1], c)
  }

  // ---------------------------------------------------------------- ordered maps

  /** A `std::map<std::string, V>`: entries in strictly ascending key order, which is its iteration order. */
  datatype Entry<+V> = Entry(key: string, value: V)

  function Keys<V>(m: seq<Entry<V>>): (ks: seq<string>)
    ensures |ks| == |m|
    ensures forall i :: 0 <= i < |m| ==> ks[i] == m[i].key
  {
    seq(|m|, i requires 0 <= i < |m| => m[i].key)
  }

  predicate Ordered<V>(m: seq<Entry<V>>) {
    forall i, j :: 0 <= i < j < |m| ==> Less(m[i].key, m[j].key)
  }

  function Lookup<V>(m: seq<Entry<V>>, key: string): (r: Option<V>)
    ensures r.None? ==> forall i :: 0 <= i < |m| ==> m[i].key != key
    ensures r.Some? ==> exists i :: 0 <= i < |m| && m[i] == Entry(key, r.value)
  {
    if m == [] then None
    else if m[0].key == key then Some(m[0].value)
    else Lookup(m[1..], key)
  }

  /** In an ordered map a key has one entry, so `Lookup` finds it wherever it is. */
  lemma {:induction false} LookupAt<V>(m: seq<Entry<V>>, i: nat)
    requires Ordered(m) && i < |m|
    ensures Lookup(m, m[i].key) == Some(m[i].value)
  {
    if i > 0 {
      LessIrreflexive(m[i].key);
      LookupAt(m[1..], i - 1);
    }
  }

  /** `m[key] = value`. */
  function Insert<V>(m: seq<Entry<V>>, key: string, value: V): (r: seq<Entry<V>>) {
    if m == [] then [Entry(key, value)]
    else if m[0].key == key then [Entry(key, value)] + m[1..]
    else if Less(key, m[0].key) then [Entry(key, value)] + m
    else [m[0]] + Insert(m[1..], key, value)
  }

  /** Assigning to a key is seen under that key and no other. */
  lemma {:induction false} InsertLooksUp<V>(m: seq<Entry<V>>, key: string, value: V, other: string)
    requires Ordered(m)
    ensures Lookup(Insert(m, key, value), other) == if other == key then Some(value) else Lookup(m, other)
  {
    if m != [] && m[0].key != key && !Less(key, m[0].key) { InsertLooksUp(m[1..], key, value, other); }
  }

  /** In an ordered map `Lookup` finds what is there. */
  lemma LookupIff<V>(m: seq<Entry<V>>, key: string, value: V)
    requires Ordered(m)
    ensures Lookup(m, key) == Some(value) <==> Entry(key, value) in m
    ensures Lookup(m, key) == None <==> forall i :: 0 <= i < |m| ==> m[i].key != key
  {
    if Entry(key, value) in m {
      var i :| 0 <= i < |m| && m[i] == Entry(key, value);
      LookupAt(m, i);
    }
  }

  /** Inserting beyond the last key appends: how a map is rebuilt from its own iteration order. */
  lemma {:induction false} InsertLast<V>(m: seq<Entry<V>>, key: string, value: V)
    requires forall i :: 0 <= i < |m| ==> Less(m[i].key, key)
    ensures Insert(m, key, value) == m + [Entry(key, value)]
  {
    if m != [] {
      LessIrreflexive(key);
      if Less(key, m[0].key) {
        LessTransitive(key, m[0].key, key);
      }
      InsertLast(m[1..], key, value);
      assert m == [m[0]] + m[1..];
    }
  }
}
