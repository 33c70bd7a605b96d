/**
 The stable sort each calculator applies before its clock loop: the list is
 ordered non-decreasingly by one integer key, and processes with equal keys keep
 their relative order (the guarantee of Java's `List.sort`).
 */
module Sorting {
  import opened Processes

  /** The key each calculator's comparator extracts: arrival for
      first-come-first-served, burst for shortest-job-first, priority for
      priority scheduling (a lower value runs first). */
  datatype SortKey = ByArrival | ByBurst | ByPriority

  function Key(k: SortKey, p: Process): int
  {
    match k
    case ByArrival => p.arrivalTime
    case ByBurst => p.burstTime
    case ByPriority => p.priority
  }

  ghost predicate SortedBy(k: SortKey, s: seq<Process>)
  {
    forall i, j :: 0 <= i < j < |s| ==> Key(k, s[i]) <= Key(k, s[j])
  }

  /** The processes of s whose key is v, in the order they have in s. A
      rearrangement is stable exactly when it leaves every such subsequence
      as it was. */
  function KeyClass(k: SortKey, s: seq<Process>, v: int): seq<Process>
  {
    if s == [] then []
    else (if Key(k, s[0]) == v then [s[0]] else []) + KeyClass(k, s[1..], v)
  }

  lemma {:induction false} KeyClassMembers(k: SortKey, s: seq<Process>, v: int, x: Process)
    requires x in KeyClass(k, s, v)
    ensures x in s && Key(k, x) == v
  {
    if s != [] {
      if x != s[0] || Key(k, s[0]) != v {
        assert x in KeyClass(k, s[1..], v);
        KeyClassMembers(k, s[1..], v, x);
      }
    }
  }

  /** Places p before the first element whose key is not below p's, so p goes
      ahead of every element with an equal key. */
  function Insert(k: SortKey, p: Process, s: seq<Process>): (r: seq<Process>)
    ensures multiset(r) == multiset(s) + multiset{p}
  {
    if s == [] || Key(k, p) <= Key(k, s[0]) then [p] + s
    else
      assert s == [s[0]] + s[1..];
      [s[0]] + Insert(k, p, s[1..])
  }

  /** Insertion into a sorted list keeps it sorted. */
  lemma {:induction false} InsertSorted(k: SortKey, p: Process, s: seq<Process>)
    requires SortedBy(k, s)
    ensures SortedBy(k, Insert(k, p, s))
  {
    if s != [] && Key(k, p) > Key(k, s[0]) {
      var rest := Insert(k, p, s[1..]);
      InsertSorted(k, p, s[1..]);
      InsertBounded(k, p, s[1..], Key(k, s[0]));
      assert Insert(k, p, s) == [s[0]] + rest;
    }
  }

  /** A lower bound on p's key and on every key of s bounds every key of the
      insertion. */
  lemma {:induction false} InsertBounded(k: SortKey, p: Process, s: seq<Process>, b: int)
    requires b <= Key(k, p)
    requires forall j :: 0 <= j < |s| ==> b <= Key(k, s[j])
    ensures forall j :: 0 <= j < |Insert(k, p, s)| ==> b <= Key(k, Insert(k, p, s)[j])
  {
    if s != [] && Key(k, p) > Key(k, s[0]) {
      InsertBounded(k, p, s[1..], b);
      var rest := Insert(k, p, s[1..]);
      assert Insert(k, p, s) == [s[0]] + rest;
    }
  }

  /** Insertion puts p at the front of its equal-keyed subsequence and leaves
      every other such subsequence unchanged. */
  lemma {:induction false} InsertKeyClass(k: SortKey, p: Process, s: seq<Process>, v: int)
    ensures KeyClass(k, Insert(k, p, s), v) == (if Key(k, p) == v then [p] else []) + KeyClass(k, s, v)
  {
    var r := Insert(k, p, s);
    var hp := if Key(k, p) == v then [p] else [];
    if s == [] || Key(k, p) <= Key(k, s[0]) {
      assert r == [p] + s;
      assert r[1..] == s;
      assert KeyClass(k, r, v) == hp + KeyClass(k, s, v);
    } else {
      var rest := Insert(k, p, s[1..]);
      var hs := if Key(k, s[0]) == v then [s[0]] else [];
      assert r == [s[0]] + rest;
      assert r[1..] == rest;
      InsertKeyClass(k, p, s[1..], v);
      assert KeyClass(k, r, v) == hs + (hp + KeyClass(k, s[1..], v));
      assert KeyClass(k, s, v) == hs + KeyClass(k, s[1..], v);
      assert hs == [] || hp == [];
    }
  }

  /** Insertion sort from the back of the list: each process is inserted ahead
      of the equal-keyed ones that follow it in the input, which keeps the sort
      stable. */
  function SortBy(k: SortKey, s: seq<Process>): (r: seq<Process>)
    ensures multiset(r) == multiset(s)
    ensures SortedBy(k, r)
    ensures forall v :: KeyClass(k, r, v) == KeyClass(k, s, v)
  {
    if s == [] then []
    else
      var rest := SortBy(k, s[1..]);
      InsertSorted(k, s[0], rest);
      assert s == [s[0]] + s[1..];
      assert forall v :: KeyClass(k, Insert(k, s[0], rest), v) == KeyClass(k, s, v) by {
        forall v
          ensures KeyClass(k, Insert(k, s[0], rest), v) == KeyClass(k, s, v)
        {
          InsertKeyClass(k, s[0], rest, v);
        }
      }
      Insert(k, s[0], rest)
  }

  /** A non-empty list's first element opens the subsequence of its key. */
  lemma HeadInKeyClass(k: SortKey, s: seq<Process>)
    ensures s != [] ==> KeyClass(k, s, Key(k, s[0])) != [] && KeyClass(k, s, Key(k, s[0]))[0] == s[0]
    ensures s == [] ==> forall v :: KeyClass(k, s, v) == []
  {
  }

  /** The smallest key of a sorted list is at its front. */
  lemma SortedFront(k: SortKey, s: seq<Process>, x: Process)
    requires SortedBy(k, s)
    requires x in s
    ensures Key(k, s[0]) <= Key(k, x)
  {
    var j :| 0 <= j < |s| && s[j] == x;
    if j > 0 {
      assert Key(k, s[0]) <= Key(k, s[j]);
    }
  }

  /** Two lists sorted by the same key whose equal-keyed subsequences all
      coincide are the same list. */
  lemma {:induction false} SortedStableUnique(k: SortKey, a: seq<Process>, b: seq<Process>)
    requires SortedBy(k, a) && SortedBy(k, b)
    requires forall v :: KeyClass(k, a, v) == KeyClass(k, b, v)
    ensures a == b
    decreases |a|
  {
    HeadInKeyClass(k, a);
    HeadInKeyClass(k, b);
    if a != [] && b != [] {
      SortedHeadsAgree(k, a, b);
      TailsKeyClasses(k, a, b);
      SortedTail(k, a);
      SortedTail(k, b);
      SortedStableUnique(k, a[1..], b[1..]);
      assert a == [a[0]] + a[1..];
      assert b == [b[0]] + b[1..];
    }
  }

  lemma SortedTail(k: SortKey, s: seq<Process>)
    requires s != [] && SortedBy(k, s)
    ensures SortedBy(k, s[1..])
  {
    forall i, j | 0 <= i < j < |s| - 1
      ensures Key(k, s[1..][i]) <= Key(k, s[1..][j])
    {
      assert s[1..][i] == s[i + 1] && s[1..][j] == s[j + 1];
    }
  }

  /** Of two sorted lists with the same equal-keyed subsequences, each head has
      the smallest key of both lists, so the heads open the same subsequence
      and are the same process. */
  lemma SortedHeadsAgree(k: SortKey, a: seq<Process>, b: seq<Process>)
    requires a != [] && b != []
    requires SortedBy(k, a) && SortedBy(k, b)
    requires forall v :: KeyClass(k, a, v) == KeyClass(k, b, v)
    ensures a[0] == b[0]
  {
    HeadKeyBound(k, a, b);
    HeadKeyBound(k, b, a);
    var v := Key(k, a[0]);
    HeadInKeyClass(k, a);
    HeadInKeyClass(k, b);
    assert KeyClass(k, a, v)[0] == a[0];
    assert KeyClass(k, b, v)[0] == b[0];
  }

  /** The head of a's subsequence of its key lies in b as well, and b is
      sorted, so b's head has a key no larger. */
  lemma HeadKeyBound(k: SortKey, a: seq<Process>, b: seq<Process>)
    requires a != [] && b != []
    requires SortedBy(k, b)
    requires forall v :: KeyClass(k, a, v) == KeyClass(k, b, v)
    ensures Key(k, b[0]) <= Key(k, a[0])
  {
    var v := Key(k, a[0]);
    HeadInKeyClass(k, a);
    assert a[0] in KeyClass(k, b, v);
    KeyClassMembers(k, b, v, a[0]);
    SortedFront(k, b, a[0]);
  }

  /** Dropping a common head keeps the equal-keyed subsequences equal. */
  lemma TailsKeyClasses(k: SortKey, a: seq<Process>, b: seq<Process>)
    requires a != [] && b != [] && a[0] == b[0]
    requires forall v :: KeyClass(k, a, v) == KeyClass(k, b, v)
    ensures forall v :: KeyClass(k, a[1..], v) == KeyClass(k, b[1..], v)
  {
    var h := a[0];
    forall v
      ensures KeyClass(k, a[1..], v) == KeyClass(k, b[1..], v)
    {
      if v == Key(k, h) {
        assert KeyClass(k, a, v) == [h] + KeyClass(k, a[1..], v);
        assert KeyClass(k, b, v) == [h] + KeyClass(k, b[1..], v);
        assert ([h] + KeyClass(k, a[1..], v))[1..] == KeyClass(k, a[1..], v);
        assert ([h] + KeyClass(k, b[1..], v))[1..] == KeyClass(k, b[1..], v);
      } else {
        assert KeyClass(k, a, v) == KeyClass(k, a[1..], v);
        assert KeyClass(k, b, v) == KeyClass(k, b[1..], v);
      }
    }
  }

  /** Any arrangement of s that is sorted by k and stable is exactly `SortBy(k, s)`:
      whatever stable algorithm the runtime library uses, its result is the
      one modelled here. */
  lemma StableSortUnique(k: SortKey, s: seq<Process>, r: seq<Process>)
    requires SortedBy(k, r)
    requires forall v :: KeyClass(k, r, v) == KeyClass(k, s, v)
    ensures r == SortBy(k, s)
  {
    SortedStableUnique(k, r, SortBy(k, s));
  }

  /** Clearing the computed figures commutes with taking an equal-keyed
      subsequence, since no key is a computed figure. */
  lemma {:induction false} KeyClassResets(k: SortKey, s: seq<Process>, v: int)
    ensures KeyClass(k, Resets(s), v) == Resets(KeyClass(k, s, v))
  {
    if s != [] {
      assert Resets(s)[1..] == Resets(s[1..]);
      KeyClassResets(k, s[1..], v);
      assert Key(k, Reset(s[0])) == Key(k, s[0]);
      var head := if Key(k, s[0]) == v then [s[0]] else [];
      ResetsConcat(head, KeyClass(k, s[1..], v));
    }
  }

  lemma {:induction false} ResetsConcat(a: seq<Process>, b: seq<Process>)
    ensures Resets(a + b) == Resets(a) + Resets(b)
  {
  }

  /** Sorting and then clearing the computed figures is the same as clearing
      them and then sorting. */
  lemma SortByResets(k: SortKey, s: seq<Process>)
    ensures Resets(SortBy(k, s)) == SortBy(k, Resets(s))
  {
    var r := Resets(SortBy(k, s));
    forall i, j | 0 <= i < j < |r|
      ensures Key(k, r[i]) <= Key(k, r[j])
    {
      assert Key(k, r[i]) == Key(k, SortBy(k, s)[i]);
      assert Key(k, r[j]) == Key(k, SortBy(k, s)[j]);
    }
    forall v
      ensures KeyClass(k, r, v) == KeyClass(k, Resets(s), v)
    {
      KeyClassResets(k, SortBy(k, s), v);
      KeyClassResets(k, s, v);
    }
    StableSortUnique(k, Resets(s), r);
  }

  /** Sortedness depends only on the inputs of the processes. */
  lemma SameInputsSorted(k: SortKey, a: seq<Process>, b: seq<Process>)
    requires Resets(a) == Resets(b)
    requires SortedBy(k, a)
    ensures SortedBy(k, b)
  {
    forall i | 0 <= i < |b|
      ensures Key(k, b[i]) == Key(k, a[i])
    {
      assert Resets(a)[i] == Resets(b)[i];
    }
  }

  /** Lists with the same inputs have equal-keyed subsequences with the same
      inputs. */
  lemma SameInputsKeyClass(k: SortKey, a: seq<Process>, b: seq<Process>)
    requires Resets(a) == Resets(b)
    ensures forall v :: Resets(KeyClass(k, a, v)) == Resets(KeyClass(k, b, v))
  {
    forall v
      ensures Resets(KeyClass(k, a, v)) == Resets(KeyClass(k, b, v))
    {
      KeyClassResets(k, a, v);
      KeyClassResets(k, b, v);
    }
  }

  /** Inserting a process adds its figure to the total. */
  lemma {:induction false} TotalInsert(m: Metric, k: SortKey, p: Process, s: seq<Process>)
    ensures Total(m, Insert(k, p, s)) == Get(m, p) + Total(m, s)
  {
    if s != [] && Key(k, p) > Key(k, s[0]) {
      TotalInsert(m, k, p, s[1..]);
    }
  }

  /** Sorting leaves every total unchanged. */
  lemma {:induction false} TotalSortBy(m: Metric, k: SortKey, s: seq<Process>)
    ensures Total(m, SortBy(k, s)) == Total(m, s)
  {
    if s != [] {
      TotalSortBy(m, k, s[1..]);
      TotalInsert(m, k, s[0], SortBy(k, s[1..]));
    }
  }
}
