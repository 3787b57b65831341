/** Options, results and the sequence facts the rest of the model is written with. */
module Prelude {

  datatype Option<+T> = None | Some(value: T)

  datatype Result<+T, +E> = Success(value: T) | Failure(error: E)

  // The in-order concatenation of a sequence of blocks.
  function Concat<T>(blocks: seq<seq<T>>): seq<T> {
    if blocks == [] then [] else blocks[0] + Concat(blocks[1..])
  }

  lemma AppendAssociative<T>(a: seq<T>, b: seq<T>, c: seq<T>)
    ensures a + (b + c) == (a + b) + c
  {
  }

  lemma {:induction false} ConcatAppend<T>(a: seq<seq<T>>, b: seq<seq<T>>)
    ensures Concat(a + b) == Concat(a) + Concat(b)
  {
    if a == [] {
      assert a + b == b;
    } else {
      ConcatAppend(a[1..], b);
      assert (a + b)[0] == a[0] && (a + b)[1..] == a[1..] + b;
      AppendAssociative(a[0], Concat(a[1..]), Concat(b));
    }
  }

  // Extending a prefix of the blocks by the next one appends that block.
  lemma ConcatStep<T>(blocks: seq<seq<T>>, i: nat)
    requires i < |blocks|
    ensures Concat(blocks[..i + 1]) == Concat(blocks[..i]) + blocks[i]
  {
    assert blocks[..i + 1] == blocks[..i] + [blocks[i]];
    ConcatAppend(blocks[..i], [blocks[i]]);
  }

  lemma {:induction false} ConcatMember<T>(blocks: seq<seq<T>>, i: nat, x: T)
    requires i < |blocks| && x in blocks[i]
    ensures x in Concat(blocks)
  {
    if i > 0 {
      ConcatMember(blocks[1..], i - 1, x);
    }
  }

  // Blocks that are pairwise permutations concatenate to permutations.
  lemma {:induction false} ConcatPermuted<T>(a: seq<seq<T>>, b: seq<seq<T>>)
    requires |a| == |b|
    requires forall i :: 0 <= i < |a| ==> multiset(a[i]) == multiset(b[i])
    ensures multiset(Concat(a)) == multiset(Concat(b))
  {
    if a != [] {
      ConcatPermuted(a[1..], b[1..]);
    }
  }

  // The first element that is present.
  function First<T>(options: seq<Option<T>>): Option<T> {
    if options == [] then None
    else if options[0].Some? then options[0]
    else First(options[1..])
  }

  lemma FirstOfTwo<T>(a: Option<T>, b: Option<T>)
    ensures First([a, b]) == if a.Some? then a else b
  {
    assert [a, b][1..] == [b];
    assert First([b]) == if b.Some? then b else First([]);
  }

  lemma {:induction false} FirstAppend<T>(a: seq<Option<T>>, b: seq<Option<T>>)
    ensures First(a + b) == if First(a).Some? then First(a) else First(b)
  {
    if a == [] {
      assert a + b == b;
    } else {
      FirstAppend(a[1..], b);
      assert (a + b)[1..] == a[1..] + b;
    }
  }

  lemma {:induction false} FirstAbsent<T>(options: seq<Option<T>>)
    ensures First(options).None? <==> forall i :: 0 <= i < |options| ==> options[i].None?
  {
    if options != [] && options[0].None? {
      FirstAbsent(options[1..]);
      assert forall i :: 1 <= i < |options| ==> options[i] == options[1..][i - 1];
    }
  }

  // The first present element stands at an index before which all are absent.
  lemma {:induction false} FirstStands<T>(options: seq<Option<T>>) returns (i: nat)
    requires First(options).Some?
    ensures i < |options| && options[i] == First(options) && forall j :: 0 <= j < i ==> options[j].None?
  {
    if options[0].Some? {
      i := 0;
    } else {
      i := FirstStands(options[1..]);
      i := i + 1;
      assert forall j :: 1 <= j < i ==> options[j] == options[1..][j - 1];
    }
  }

  lemma FirstStep<T>(options: seq<Option<T>>, i: nat)
    requires i < |options|
    ensures First(options[..i + 1]) == if First(options[..i]).Some? then First(options[..i]) else options[i]
  {
    assert options[..i + 1] == options[..i] + [options[i]];
    FirstAppend(options[..i], [options[i]]);
  }

  // Once a prefix has a present element, the whole sequence has the same first one.
  lemma FirstPrefix<T>(options: seq<Option<T>>, i: nat)
    requires i <= |options|
    ensures First(options[..i]).Some? ==> First(options) == First(options[..i])
  {
    assert options == options[..i] + options[i..];
    FirstAppend(options[..i], options[i..]);
  }

  // A block-wise sequence of checks fails at its first failing block.
  lemma {:induction false} FirstConcat<T>(blocks: seq<seq<Option<T>>>)
    ensures First(Concat(blocks)).None? <==> forall i :: 0 <= i < |blocks| ==> First(blocks[i]).None?
  {
    if blocks != [] {
      FirstConcat(blocks[1..]);
      FirstAppend(blocks[0], Concat(blocks[1..]));
      assert forall i :: 1 <= i < |blocks| ==> blocks[i] == blocks[1..][i - 1];
    }
  }

  lemma FirstConcatPrefix<T>(blocks: seq<seq<Option<T>>>, i: nat)
    requires i < |blocks|
    requires First(Concat(blocks[..i])).None?
    ensures First(blocks[i]).Some? ==> First(Concat(blocks)) == First(blocks[i])
    ensures First(blocks[i]).None? ==> First(Concat(blocks[..i + 1])).None?
  {
    ConcatStep(blocks, i);
    FirstAppend(Concat(blocks[..i]), blocks[i]);
    hide First, Concat;
    assert blocks == blocks[..i + 1] + blocks[i + 1..];
    ConcatAppend(blocks[..i + 1], blocks[i + 1..]);
    FirstAppend(Concat(blocks[..i + 1]), Concat(blocks[i + 1..]));
  }

  predicate Distinct<T(==)>(s: seq<T>) {
    forall i, j :: 0 <= i < j < |s| ==> s[i] != s[j]
  }

  lemma {:induction false} DistinctCount<T>(s: seq<T>, x: T)
    requires Distinct(s) && x in s
    ensures multiset(s)[x] == 1
  {
    assert s == [s[0]] + s[1..];
    if s[0] == x {
      assert x !in s[1..];
    } else {
      DistinctCount(s[1..], x);
    }
  }

  // A separator that neither left part contains makes a joined pair readable.
  lemma SeparatorSplit(c: char, n1: string, m1: string, n2: string, m2: string)
    requires c !in n1 && c !in n2 && n1 + [c] + m1 == n2 + [c] + m2
    ensures n1 == n2 && m1 == m2
  {
    var s, t := n1 + [c] + m1, n2 + [c] + m2;
    assert s[|n1|] == c && forall k :: 0 <= k < |n1| ==> s[k] == n1[k] != c;
    assert t[|n2|] == c && forall k :: 0 <= k < |n2| ==> t[k] == n2[k] != c;
    assert |n1| == |n2|;
    assert s[..|n1|] == n1 && t[..|n2|] == n2;
    assert s[|n1| + 1..] == m1 && t[|n2| + 1..] == m2;
  }

  lemma RemoveAt<T>(s: seq<T>, j: nat)
    requires j < |s|
    ensures multiset(s) == multiset{s[j]} + multiset(s[..j] + s[j + 1..])
  {
    assert s == s[..j] + [s[j]] + s[j + 1..];
  }

  lemma CancelOne<T>(x: T, a: multiset<T>, b: multiset<T>)
    ensures multiset{x} + a == multiset{x} + b <==> a == b
  {
    assert (multiset{x} + a) - multiset{x} == a;
    assert (multiset{x} + b) - multiset{x} == b;
  }

  // Taking one equal element out of two permutations leaves permutations.
  lemma PermutedRest<T>(a: seq<T>, b: seq<T>, j: nat)
    requires 0 < |a| && j < |b| && b[j] == a[0]
    ensures multiset(a) == multiset(b) <==> multiset(a[1..]) == multiset(b[..j] + b[j + 1..])
  {
    RemoveAt(a, 0);
    RemoveAt(b, j);
    assert a[..0] + a[1..] == a[1..];
    CancelOne(a[0], multiset(a[1..]), multiset(b[..j] + b[j + 1..]));
  }

  // Mapping a function over two permutations of the same elements gives permutations.
  lemma {:induction false} MapPermuted<A, B>(a: seq<A>, b: seq<A>, fa: seq<B>, fb: seq<B>, f: A -> B)
    requires multiset(a) == multiset(b)
    requires |fa| == |a| && forall i :: 0 <= i < |a| ==> fa[i] == f(a[i])
    requires |fb| == |b| && forall i :: 0 <= i < |b| ==> fb[i] == f(b[i])
    ensures multiset(fa) == multiset(fb)
  {
    if a == [] {
      assert |multiset(b)| == 0;
    } else {
      assert a[0] in multiset(b);
      var j :| 0 <= j < |b| && b[j] == a[0];
      PermutedRest(a, b, j);
      MapPermuted(a[1..], b[..j] + b[j + 1..], fa[1..], fb[..j] + fb[j + 1..], f);
      PermutedRest(fa, fb, j);
    }
  }

  // --- Projections: some elements of a sequence, in order, each with what it comes to

  // Exactly the places of the elements to keep, in increasing order.
  ghost predicate Selects<A>(s: seq<A>, keep: A -> bool, at: seq<nat>) {
    && (forall i, j :: 0 <= i < j < |at| ==> at[i] < at[j])
    && (forall i :: 0 <= i < |at| ==> at[i] < |s| && keep(s[at[i]]))
    && (forall k :: 0 <= k < |s| && keep(s[k]) ==> k in at)
  }

  ghost predicate Fit<A, B>(s: seq<A>, at: seq<nat>, fits: (A, B) -> bool, r: seq<B>) {
    |r| == |at| && forall i :: 0 <= i < |at| ==> at[i] < |s| && fits(s[at[i]], r[i])
  }

  ghost predicate Projects<A, B>(s: seq<A>, keep: A -> bool, fits: (A, B) -> bool, r: seq<B>) {
    exists at: seq<nat> :: Selects(s, keep, at) && Fit(s, at, fits, r)
  }

  lemma ProjectsNothing<A, B>(keep: A -> bool, fits: (A, B) -> bool)
    ensures Projects([], keep, fits, [])
  {
    var at: seq<nat> := [];
    assert Selects([], keep, at) && Fit([], at, fits, []);
  }

  lemma ProjectsSkip<A, B>(s: seq<A>, x: A, keep: A -> bool, fits: (A, B) -> bool, r: seq<B>)
    requires Projects(s, keep, fits, r) && !keep(x)
    ensures Projects(s + [x], keep, fits, r)
  {
    var at :| Selects(s, keep, at) && Fit(s, at, fits, r);
    assert Selects(s + [x], keep, at) && Fit(s + [x], at, fits, r);
  }

  lemma ProjectsTake<A, B>(s: seq<A>, x: A, keep: A -> bool, fits: (A, B) -> bool, r: seq<B>, y: B)
    requires Projects(s, keep, fits, r) && keep(x) && fits(x, y)
    ensures Projects(s + [x], keep, fits, r + [y])
  {
    var at :| Selects(s, keep, at) && Fit(s, at, fits, r);
    var n: nat := |s|;
    SelectsTake(s, x, keep, at);
    FitTake(s, x, at, fits, r, y);
    hide Selects, Fit;
    assert Selects(s + [x], keep, at + [n]) && Fit(s + [x], at + [n], fits, r + [y]);
  }

  lemma SelectsTake<A>(s: seq<A>, x: A, keep: A -> bool, at: seq<nat>)
    requires Selects(s, keep, at) && keep(x)
    ensures Selects(s + [x], keep, at + [|s|])
  {
    var s', at' := s + [x], at + [|s|];
    forall k | 0 <= k < |s'| && keep(s'[k]) ensures k in at' {
      assert at'[|at|] == |s|;
      if k < |s| {
        assert keep(s[k]) && k in at;
      }
    }
  }

  lemma FitTake<A, B>(s: seq<A>, x: A, at: seq<nat>, fits: (A, B) -> bool, r: seq<B>, y: B)
    requires Fit(s, at, fits, r) && fits(x, y)
    ensures Fit(s + [x], at + [|s|], fits, r + [y])
  {
  }
}
