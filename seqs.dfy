/** The array operations the generator uses (`filter`, `find`, `some`),
    each with the laws the rest of the model relies on. */
module Seqs {
  import opened Wrappers

  /** `s.filter(p)`: the elements satisfying `p`, in their order in `s`. */
  function Filter<T>(p: T -> bool, s: seq<T>): (r: seq<T>)
    ensures |r| <= |s|
    ensures forall x :: x in r ==> x in s && p(x)
    ensures forall x :: x in s && p(x) ==> x in r
    decreases |s|
  {
    if s == [] then []
    else
      var init := s[..|s| - 1];
      assert s == init + [s[|s| - 1]];
      Filter(p, init) + (if p(s[|s| - 1]) then [s[|s| - 1]] else [])
  }

  /** Filtering a concatenation filters each part: the kept elements stay
      in their original order. */
  lemma {:induction false} FilterAppend<T>(p: T -> bool, a: seq<T>, b: seq<T>)
    ensures Filter(p, a + b) == Filter(p, a) + Filter(p, b)
    decreases |b|
  {
    if b == [] {
      assert a + b == a;
    } else {
      assert (a + b)[..|a + b| - 1] == a + b[..|b| - 1];
      FilterAppend(p, a, b[..|b| - 1]);
    }
  }

  /** A filter that keeps nothing returns the empty sequence. */
  lemma {:induction false} FilterNone<T>(p: T -> bool, s: seq<T>)
    requires forall k :: 0 <= k < |s| ==> !p(s[k])
    ensures Filter(p, s) == []
    decreases |s|
  {
    if s != [] {
      FilterNone(p, s[..|s| - 1]);
    }
  }

  /** A filter that keeps everything returns the sequence itself. */
  lemma {:induction false} FilterAll<T>(p: T -> bool, s: seq<T>)
    requires forall k :: 0 <= k < |s| ==> p(s[k])
    ensures Filter(p, s) == s
    decreases |s|
  {
    if s != [] {
      var init := s[..|s| - 1];
      FilterAll(p, init);
      assert p(s[|s| - 1]);
      assert Filter(p, s) == Filter(p, init) + [s[|s| - 1]];
      assert init + [s[|s| - 1]] == s;
    }
  }

  lemma AppendAssoc<T>(a: seq<T>, b: seq<T>, c: seq<T>)
    ensures (a + b) + c == a + (b + c)
  {
  }

  /** `s.map(f)`. */
  function Map<A, B>(f: A -> B, s: seq<A>): (r: seq<B>)
    ensures |r| == |s|
    decreases |s|
  {
    if s == [] then [] else Map(f, s[..|s| - 1]) + [f(s[|s| - 1])]
  }

  /** Mapping distributes over concatenation. */
  lemma {:induction false} MapAppend<A, B>(f: A -> B, a: seq<A>, b: seq<A>)
    ensures Map(f, a + b) == Map(f, a) + Map(f, b)
    decreases |b|
  {
    if b == [] {
      assert a + b == a;
    } else {
      assert (a + b)[..|a + b| - 1] == a + b[..|b| - 1];
      MapAppend(f, a, b[..|b| - 1]);
    }
  }

  lemma {:induction false} MapAt<A, B>(f: A -> B, s: seq<A>, k: nat)
    requires k < |s|
    ensures Map(f, s)[k] == f(s[k])
    decreases |s|
  {
    if k < |s| - 1 {
      MapAt(f, s[..|s| - 1], k);
    }
  }

  /** The index of the first element satisfying `p`. */
  function FirstIndex<T>(p: T -> bool, s: seq<T>): (r: Option<nat>)
    ensures r.Some? ==> r.value < |s| && p(s[r.value])
    ensures r.Some? ==> forall j :: 0 <= j < r.value ==> !p(s[j])
    ensures r.None? ==> forall j :: 0 <= j < |s| ==> !p(s[j])
    decreases |s|
  {
    if s == [] then None
    else if p(s[0]) then Some(0)
    else match FirstIndex(p, s[1..])
      case None => None
      case Some(i) => Some(i + 1)
  }

  /** The first index in a sequence extended by one element. */
  lemma FirstIndexSnoc<T>(p: T -> bool, s: seq<T>, x: T)
    ensures FirstIndex(p, s + [x]) ==
      if FirstIndex(p, s).Some? then FirstIndex(p, s) else if p(x) then Some(|s|) else None
  {
    var t := s + [x];
    assert forall j :: 0 <= j < |s| ==> t[j] == s[j];
    assert t[|s|] == x;
    match FirstIndex(p, s)
    case Some(i) =>
      FirstIndexIs(p, t, i);
    case None =>
      if p(x) {
        FirstIndexIs(p, t, |s|);
      } else {
        FirstIndexNone(p, t);
      }
  }

  /** An index whose element is the first to satisfy `p` is the one found. */
  lemma FirstIndexIs<T>(p: T -> bool, s: seq<T>, i: nat)
    requires i < |s| && p(s[i]) && forall j :: 0 <= j < i ==> !p(s[j])
    ensures FirstIndex(p, s) == Some(i)
  {
  }

  /** Nothing is found where nothing satisfies `p`. */
  lemma FirstIndexNone<T>(p: T -> bool, s: seq<T>)
    requires forall j :: 0 <= j < |s| ==> !p(s[j])
    ensures FirstIndex(p, s) == None
  {
  }

  /** Nothing before the first index satisfies `p`. */
  lemma FirstIndexPrefix<T>(p: T -> bool, s: seq<T>, k: nat)
    requires FirstIndex(p, s) == Some(k)
    ensures FirstIndex(p, s[..k]) == None
  {
    assert forall j :: 0 <= j < k ==> s[..k][j] == s[j];
    FirstIndexNone(p, s[..k]);
  }

  /** `s.find(p)`: the first element satisfying `p`, if any. */
  function Find<T>(p: T -> bool, s: seq<T>): (r: Option<T>)
    ensures r.Some? <==> exists k :: 0 <= k < |s| && p(s[k])
    ensures r.Some? ==> r.value in s && p(r.value)
  {
    match FirstIndex(p, s)
    case None => None
    case Some(i) => Some(s[i])
  }

  /** `s.some(p)`. */
  predicate Any<T>(p: T -> bool, s: seq<T>) {
    exists k :: 0 <= k < |s| && p(s[k])
  }

  /** No position in [from, to) satisfies `p`. */
  predicate NoneIn(p: nat -> bool, from: nat, to: nat)
    decreases if from < to then to - from else 0
  {
    from >= to || (!p(from) && NoneIn(p, from + 1, to))
  }

  /** Two positions that both hold `p` with none before either are one. */
  lemma NoneInFirst(p: nat -> bool, from: nat, a: nat, b: nat)
    requires from <= a && from <= b && p(a) && p(b)
    requires NoneIn(p, from, a) && NoneIn(p, from, b)
    ensures a == b
  {
    NoneInAt(p, from, a, b);
    NoneInAt(p, from, b, a);
  }

  /** A range where `p` holds nowhere. */
  lemma NoneInAt(p: nat -> bool, from: nat, to: nat, k: nat)
    ensures NoneIn(p, from, to) && from <= k < to ==> !p(k)
  {
    if NoneIn(p, from, to) && from <= k < to {
      NoneInHolds(p, from, to, k);
    }
  }

  lemma {:induction false} NoneInHolds(p: nat -> bool, from: nat, to: nat, k: nat)
    requires NoneIn(p, from, to) && from <= k < to
    ensures !p(k)
    decreases k - from
  {
    if from < k {
      NoneInHolds(p, from + 1, to, k);
    }
  }
}

/** What the generators do to the file system, as data: the directories they
    create and the files they write, in order. */
module Fs {

  datatype FsOp = MakeDir(path: string) | WriteFile(path: string, content: string)

  /** `path.join` of two segments, taken as plain concatenation. */
  function PathJoin(dir: string, entry: string): string {
    dir + "/" + entry
  }
}
