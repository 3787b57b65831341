/** Joining names with a comma and a space, and reading such a list back. */
module Strings {
  import opened Prelude

  function Join(strings: seq<string>, separator: string): string {
    if |strings| == 0 then ""
    else if |strings| == 1 then strings[0]
    else strings[0] + separator + Join(strings[1..], separator)
  }

  lemma {:induction false} JoinStep(strings: seq<string>, separator: string, last: string)
    requires strings != []
    ensures Join(strings + [last], separator) == Join(strings, separator) + separator + last
  {
    if |strings| > 1 {
      JoinStep(strings[1..], separator, last);
      assert (strings + [last])[1..] == strings[1..] + [last];
      var head, rest := strings[0] + separator, Join(strings[1..], separator);
      AppendAssociative(head, rest + separator, last);
      AppendAssociative(head, rest, separator);
    } else {
      assert (strings + [last])[1..] == [last];
      assert Join([last], separator) == last;
    }
  }

  // The source's loop, which grows the result from the left.
  method JoinStrings(strings: seq<string>, separator: string) returns (result: string)
    ensures result == Join(strings, separator)
  {
    if |strings| == 0 {
      return "";
    }
    if |strings| == 1 {
      return strings[0];
    }
    result := strings[0];
    assert strings[..1] == [strings[0]];
    for i := 1 to |strings|
      invariant result == Join(strings[..i], separator)
    {
      JoinStep(strings[..i], separator, strings[i]);
      assert strings[..i] + [strings[i]] == strings[..i + 1];
      result := result + (separator + strings[i]);
      AppendAssociative(Join(strings[..i], separator), separator, strings[i]);
    }
    assert strings[..|strings|] == strings;
  }

  const COMMA := ", "

  predicate StartsWithComma(s: string) {
    |s| >= 2 && s[0] == ',' && s[1] == ' '
  }

  predicate HasComma(s: string) {
    exists k :: 0 <= k < |s| && StartsWithComma(s[k..])
  }

  // Split at every ", ", from left to right.
  function Split(s: string): (parts: seq<string>)
    ensures |parts| >= 1
  {
    if s == "" then [""]
    else if StartsWithComma(s) then [""] + Split(s[2..])
    else
      var rest := Split(s[1..]);
      [[s[0]] + rest[0]] + rest[1..]
  }

  lemma HasCommaTail(s: string)
    requires s != "" && !HasComma(s)
    ensures !StartsWithComma(s) && !HasComma(s[1..])
  {
    assert s[0..] == s;
    forall k | 0 <= k < |s[1..]| ensures !StartsWithComma(s[1..][k..]) {
      assert s[1..][k..] == s[k + 1..];
    }
  }

  lemma {:induction false} SplitPlain(s: string)
    requires !HasComma(s)
    ensures Split(s) == [s]
  {
    if s != "" {
      HasCommaTail(s);
      SplitPlain(s[1..]);
      assert s == [s[0]] + s[1..];
    }
  }

  lemma {:induction false} SplitFirst(s: string, rest: string)
    requires !HasComma(s)
    ensures Split(s + COMMA + rest) == [s] + Split(rest)
  {
    var all := s + COMMA + rest;
    if s == "" {
      assert all[2..] == rest;
    } else {
      HasCommaTail(s);
      SplitFirst(s[1..], rest);
      assert all[1..] == s[1..] + COMMA + rest;
      assert all[0] == s[0] && all[1] == if |s| > 1 then s[1] else ',';
      var tail := Split(all[1..]);
      assert tail == [s[1..]] + Split(rest);
      assert s == [s[0]] + tail[0] && tail[1..] == Split(rest);
    }
  }

  // No part of a split holds a ", " of its own.
  lemma {:induction false} SplitPartsPlain(s: string)
    ensures forall i :: 0 <= i < |Split(s)| ==> !HasComma(Split(s)[i])
    ensures s != "" && !StartsWithComma(s) && Split(s)[0] != "" ==> Split(s)[0][0] == s[0]
    ensures |Split(s)[0]| >= 2 ==> |s| >= 2 && Split(s)[0][1] == s[1]
  {
    if s == "" {
    } else if StartsWithComma(s) {
      SplitPartsPlain(s[2..]);
    } else {
      SplitPartsPlain(s[1..]);
      var rest := Split(s[1..]);
      var head := [s[0]] + rest[0];
      forall k | 0 <= k < |head| ensures !StartsWithComma(head[k..]) {
        if k > 0 {
          assert head[k..] == rest[0][k - 1..];
        } else {
          assert head[0..] == head;
        }
      }
    }
  }

  lemma {:induction false} SplitJoin(strings: seq<string>)
    requires strings != [] && forall i :: 0 <= i < |strings| ==> !HasComma(strings[i])
    ensures Split(Join(strings, COMMA)) == strings
  {
    if |strings| == 1 {
      SplitPlain(strings[0]);
    } else {
      SplitJoin(strings[1..]);
      SplitFirst(strings[0], Join(strings[1..], COMMA));
    }
  }

  // A joined list that is not empty reads back exactly when no element holds a ", ".
  lemma JoinReadable(strings: seq<string>)
    requires strings != []
    ensures Split(Join(strings, COMMA)) == strings <==> forall i :: 0 <= i < |strings| ==> !HasComma(strings[i])
  {
    SplitPartsPlain(Join(strings, COMMA));
    if forall i :: 0 <= i < |strings| ==> !HasComma(strings[i]) {
      SplitJoin(strings);
    }
  }
}
