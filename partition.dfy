/**
 * From `supported_sdk_versions` to the distinct major SDK versions:
 * `new Set(list.map(v => parseInt(v.split(".")[0])))`, iterated in
 * insertion order (index.js:59-62).
 */
module Partition {
  import opened Wrappers
  import opened Numbers
  import opened JsValues

  /** Why `list.map(...)` throws a TypeError. */
  datatype ExtractError =
    | NotAnArray(found: Value)                 // `.map` is not a function of the value (a missing key is `undefined`)
    | NotAString(index: nat, found: Value)     // `.split` is not a function of that element

  /** The major version of one version string; `None` is NaN. */
  function MajorOf(versionString: string): (major: Option<int>)
  {
    ParseInt(LeadingComponent(versionString))
  }

  /**
   * A version string starting with a digit has a non-negative major; an
   * empty one, or one starting with `.`, has NaN.
   */
  lemma MajorOfEdges(versionString: string)
    ensures |versionString| > 0 && IsDigit(versionString[0]) ==> MajorOf(versionString).Some? && MajorOf(versionString).value >= 0
    ensures versionString == [] || versionString[0] == '.' ==> MajorOf(versionString) == None
  {
    ParseIntDefinedIff(LeadingComponent(versionString));
  }

  /** Every element is a string, the only thing `.split` can be called on. */
  predicate AllStrings(items: seq<Value>) {
    forall i :: 0 <= i < |items| ==> items[i].Str?
  }

  /**
   * The strings `.split` is called on, in order, or the index of the
   * first element that is not a string (where `.map`'s callback throws).
   */
  function StringsOf(items: seq<Value>): (r: Result<seq<string>, nat>)
    ensures r.Success? <==> AllStrings(items)
    ensures r.Success? ==>
              |r.value| == |items| && forall i :: 0 <= i < |items| ==> r.value[i] == items[i].s
    ensures r.Failure? ==>
              r.error < |items| && !items[r.error].Str? &&
              forall i :: 0 <= i < r.error ==> items[i].Str?
  {
    if items == [] then Success([])
    else if !items[0].Str? then Failure(0)
    else
      var rest := StringsOf(items[1..]);
      if rest.Success? then Success([items[0].s] + rest.value)
      else Failure(rest.error + 1)
  }

  /**
   * `supported.map(v => parseInt(v.split(".")[0]))`, or the TypeError it
   * throws. The callback cannot throw on a string, so mapping fails
   * exactly at the first element that is not one.
   */
  function ExtractMajors(supported: Value): (r: Result<seq<Option<int>>, ExtractError>)
    ensures r.Success? <==> supported.Arr? && AllStrings(supported.items)
    ensures r.Success? ==>
              |r.value| == |supported.items| &&
              forall i :: 0 <= i < |r.value| ==> r.value[i] == MajorOf(supported.items[i].s)
    ensures !supported.Arr? ==> r == Failure(NotAnArray(supported))
    ensures r.Failure? && supported.Arr? ==>
              r.error.NotAString? &&
              var k := r.error.index;
              k < |supported.items| && r.error.found == supported.items[k] &&
              !supported.items[k].Str? &&
              forall i :: 0 <= i < k ==> supported.items[i].Str?
  {
    match supported
    case Arr(items) =>
      (match StringsOf(items)
       case Success(ss) => Success(seq(|ss|, i requires 0 <= i < |ss| => MajorOf(ss[i])))
       case Failure(k) => Failure(NotAString(k, items[k])))
    case _ => Failure(NotAnArray(supported))
  }

  predicate NoDuplicates<T(==)>(s: seq<T>) {
    forall i, j :: 0 <= i < j < |s| ==> s[i] != s[j]
  }

  /**
   * The members of `new Set(xs)` in iteration order: each element is
   * added in turn, and adding one that is already a member changes
   * nothing. NaN (`None`) is one member, as the Set's SameValueZero
   * comparison makes it.
   */
  function Dedup<T(==)>(xs: seq<T>): (r: seq<T>)
    ensures forall i :: 0 <= i < |r| ==> r[i] in xs
    ensures forall i :: 0 <= i < |xs| ==> xs[i] in r
    ensures NoDuplicates(r)
    ensures |r| <= |xs|
  {
    if xs == [] then []
    else
      var prefix := Dedup(xs[..|xs| - 1]);
      var last := xs[|xs| - 1];
      assert xs == xs[..|xs| - 1] + [last];
      if last in prefix then prefix else prefix + [last]
  }

  /** The index where `x` first occurs in `xs`. */
  function FirstIndex<T(==)>(xs: seq<T>, x: T): (i: nat)
    requires x in xs
    ensures i < |xs| && xs[i] == x && x !in xs[..i]
  {
    if xs[0] == x then 0
    else
      var k := FirstIndex(xs[1..], x);
      assert xs[..k + 1] == [xs[0]] + xs[1..][..k];
      k + 1
  }

  /** An index of `x` with no earlier occurrence is its first index. */
  lemma FirstIndexUnique<T>(xs: seq<T>, x: T, i: nat)
    requires i < |xs| && xs[i] == x && x !in xs[..i]
    ensures FirstIndex(xs, x) == i
  {
  }

  /** Appending an element leaves the first index of every earlier element alone. */
  lemma FirstIndexSnoc<T>(init: seq<T>, last: T, y: T)
    requires y in init
    ensures y in init + [last] && FirstIndex(init + [last], y) == FirstIndex(init, y)
  {
    var k := FirstIndex(init, y);
    assert (init + [last])[..k] == init[..k];
    FirstIndexUnique(init + [last], y, k);
  }

  /**
   * The Set iterates its members in the order in which they first occur
   * in the list.
   */
  lemma {:induction false} DedupFirstSeenOrder<T>(xs: seq<T>, i: nat, j: nat)
    requires i < j < |Dedup(xs)|
    ensures FirstIndex(xs, Dedup(xs)[i]) < FirstIndex(xs, Dedup(xs)[j])
  {
    var n := |xs| - 1;
    var init, last := xs[..n], xs[n];
    var prefix := Dedup(init);
    assert xs == init + [last];
    if last !in init {
      DedupNewLast(xs);
    }
    if j < |prefix| {
      DedupFirstSeenOrder(init, i, j);
      FirstIndexSnoc(init, last, prefix[i]);
      FirstIndexSnoc(init, last, prefix[j]);
    } else {
      FirstIndexUnique(xs, last, n);
      FirstIndexSnoc(init, last, prefix[i]);
    }
  }

  /** In a sequence ordered by first index, the last element has the largest one. */
  lemma OrderedByFirstIndexUpTo<T>(xs: seq<T>, r: seq<T>, p: nat)
    requires forall i :: 0 <= i < |r| ==> r[i] in xs
    requires forall i, j :: 0 <= i < j < |r| ==> FirstIndex(xs, r[i]) < FirstIndex(xs, r[j])
    requires p < |r|
    ensures FirstIndex(xs, r[p]) <= FirstIndex(xs, r[|r| - 1])
  {
  }

  /** The conditions under which a sequence lists the Set built from `xs`. */
  predicate ListsFirstOccurrences<T(==)>(xs: seq<T>, r: seq<T>) {
    && (forall i :: 0 <= i < |r| ==> r[i] in xs)
    && (forall i :: 0 <= i < |xs| ==> xs[i] in r)
    && (forall i, j :: 0 <= i < j < |r| ==> FirstIndex(xs, r[i]) < FirstIndex(xs, r[j]))
  }

  /** Strictly increasing first indices: the `i`-th is at least `i`. */
  lemma {:induction false} FirstIndexAtLeast<T>(xs: seq<T>, r: seq<T>, i: nat)
    requires ListsFirstOccurrences(xs, r)
    requires i < |r|
    ensures FirstIndex(xs, r[i]) >= i
  {
    if i > 0 {
      FirstIndexAtLeast(xs, r, i - 1);
    }
  }

  /** A sequence ordered by first occurrence is no longer than the list. */
  lemma OrderedNoLongerThanList<T>(xs: seq<T>, r: seq<T>)
    requires ListsFirstOccurrences(xs, r)
    ensures |r| <= |xs|
  {
    if |r| > 0 {
      FirstIndexAtLeast(xs, r, |r| - 1);
    }
  }

  /**
   * Iteration order of the Set, characterised without reference to how
   * it is built: the only sequence holding exactly the list's elements,
   * ordered by where each first occurs, is `Dedup(xs)`.
   */
  lemma {:induction false} DedupUnique<T>(xs: seq<T>, r: seq<T>)
    requires ListsFirstOccurrences(xs, r)
    ensures r == Dedup(xs)
    decreases |xs|, 1
  {
    if xs == [] {
      OrderedNoLongerThanList(xs, r);
    } else if xs[|xs| - 1] in xs[..|xs| - 1] {
      DedupUniqueRepeatedLast(xs, r);
    } else {
      DedupUniqueNewLast(xs, r);
    }
  }

  /** The first index of an element of the front part is the same in the whole list. */
  lemma FirstIndexInFront<T>(xs: seq<T>, y: T)
    requires xs != [] && y in xs[..|xs| - 1]
    ensures FirstIndex(xs, y) == FirstIndex(xs[..|xs| - 1], y)
  {
    assert xs == xs[..|xs| - 1] + [xs[|xs| - 1]];
    FirstIndexSnoc(xs[..|xs| - 1], xs[|xs| - 1], y);
  }

  lemma {:induction false} DedupUniqueRepeatedLast<T>(xs: seq<T>, r: seq<T>)
    requires ListsFirstOccurrences(xs, r)
    requires xs != [] && xs[|xs| - 1] in xs[..|xs| - 1]
    ensures r == Dedup(xs)
    decreases |xs|, 0
  {
    var n := |xs| - 1;
    var init := xs[..n];
    assert xs == init + [xs[n]];
    forall i | 0 <= i < |r| ensures r[i] in init {
      assert r[i] in xs;
    }
    forall i | 0 <= i < |init| ensures init[i] in r {
      assert init[i] == xs[i];
    }
    forall i, j | 0 <= i < j < |r| ensures FirstIndex(init, r[i]) < FirstIndex(init, r[j]) {
      FirstIndexInFront(xs, r[i]);
      FirstIndexInFront(xs, r[j]);
    }
    DedupUnique(init, r);
  }

  /** When the list's last element is new, it is the last one listed. */
  lemma NewLastListedLast<T>(xs: seq<T>, r: seq<T>)
    requires ListsFirstOccurrences(xs, r)
    requires xs != [] && xs[|xs| - 1] !in xs[..|xs| - 1]
    ensures r != [] && r[|r| - 1] == xs[|xs| - 1]
  {
    var n := |xs| - 1;
    FirstIndexUnique(xs, xs[n], n);
    assert xs[n] in r;
    var p :| 0 <= p < |r| && r[p] == xs[n];
    OrderedByFirstIndexUpTo(xs, r, p);
  }

  /** Dropping that last element lists the front part of the list. */
  lemma FrontListsFront<T>(xs: seq<T>, r: seq<T>)
    requires ListsFirstOccurrences(xs, r)
    requires xs != [] && xs[|xs| - 1] !in xs[..|xs| - 1]
    requires r != [] && r[|r| - 1] == xs[|xs| - 1]
    ensures ListsFirstOccurrences(xs[..|xs| - 1], r[..|r| - 1])
  {
    var n := |xs| - 1;
    var init, last := xs[..n], xs[n];
    var front := r[..|r| - 1];
    FirstIndexUnique(xs, last, n);
    forall i | 0 <= i < |front| ensures front[i] in init {
      assert FirstIndex(xs, r[i]) < FirstIndex(xs, r[|r| - 1]);
      assert r[i] in xs;
    }
    forall i | 0 <= i < |init| ensures init[i] in front {
      assert init[i] == xs[i];
      assert xs[i] in r;
      var q :| 0 <= q < |r| && r[q] == init[i];
      assert front[q] == init[i];
    }
    forall i, j | 0 <= i < j < |front| ensures FirstIndex(init, front[i]) < FirstIndex(init, front[j]) {
      FirstIndexInFront(xs, r[i]);
      FirstIndexInFront(xs, r[j]);
    }
  }

  lemma {:induction false} DedupUniqueNewLast<T>(xs: seq<T>, r: seq<T>)
    requires ListsFirstOccurrences(xs, r)
    requires xs != [] && xs[|xs| - 1] !in xs[..|xs| - 1]
    ensures r == Dedup(xs)
    decreases |xs|, 0
  {
    var n := |xs| - 1;
    NewLastListedLast(xs, r);
    FrontListsFront(xs, r);
    DedupUnique(xs[..n], r[..|r| - 1]);
    DedupNewLast(xs);
    assert r == r[..|r| - 1] + [xs[n]];
  }

  /** Adding an element the Set does not hold yet appends it. */
  lemma DedupNewLast<T>(xs: seq<T>)
    requires xs != [] && xs[|xs| - 1] !in xs[..|xs| - 1]
    ensures Dedup(xs) == Dedup(xs[..|xs| - 1]) + [xs[|xs| - 1]]
  {
    var prefix := Dedup(xs[..|xs| - 1]);
    assert xs[|xs| - 1] !in prefix by {
      forall i | 0 <= i < |prefix| ensures prefix[i] != xs[|xs| - 1] {
        assert prefix[i] in xs[..|xs| - 1];
      }
    }
  }

  /** `Dedup(xs)` meets the characterisation, so by `DedupUnique` it is the one sequence that does. */
  lemma DedupListsFirstOccurrences<T>(xs: seq<T>)
    ensures ListsFirstOccurrences(xs, Dedup(xs))
  {
    forall i, j | 0 <= i < j < |Dedup(xs)|
      ensures FirstIndex(xs, Dedup(xs)[i]) < FirstIndex(xs, Dedup(xs)[j])
    {
      DedupFirstSeenOrder(xs, i, j);
    }
  }
}
