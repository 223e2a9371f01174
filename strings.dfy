/** String operations of Ruby and ActiveSupport that the routing engine relies on,
    restricted to what the engine needs (ASCII case and whitespace). */
module Strings {

  predicate StartsWith(s: string, prefix: string) {
    |prefix| <= |s| && s[..|prefix|] == prefix
  }

  /** `String#include?`: `sub` occurs somewhere in `s`. */
  predicate Contains(s: string, sub: string)
    decreases |s|
  {
    if |s| < |sub| then false
    else s[..|sub|] == sub || Contains(s[1..], sub)
  }

  /** `sub` occurs in `s` starting at position `i`. */
  predicate OccursAt(s: string, sub: string, i: int) {
    0 <= i <= |s| - |sub| && s[i..i + |sub|] == sub
  }

  lemma {:induction false} ContainsIff(s: string, sub: string)
    ensures Contains(s, sub) <==> exists i :: OccursAt(s, sub, i)
    decreases |s|
  {
    if |s| >= |sub| && |s| > 0 {
      ContainsIff(s[1..], sub);
      if Contains(s[1..], sub) {
        var i :| OccursAt(s[1..], sub, i);
        assert s[i + 1..i + 1 + |sub|] == s[1..][i..i + |sub|];
        assert OccursAt(s, sub, i + 1);
      }
      forall i | 1 <= i && OccursAt(s, sub, i)
        ensures Contains(s[1..], sub)
      {
        assert s[1..][i - 1..i - 1 + |sub|] == s[i..i + |sub|];
        assert OccursAt(s[1..], sub, i - 1);
      }
      if s[..|sub|] == sub {
        assert OccursAt(s, sub, 0);
      }
    } else if |s| >= |sub| {
      assert OccursAt(s, sub, 0);
    }
  }

  /** ActiveSupport's whitespace class, restricted to ASCII. */
  predicate IsSpace(c: char) {
    c == ' ' || c == '\t' || c == '\n' || c == '\r' || c as int == 11 || c as int == 12
  }

  /** `String#blank?`: empty or whitespace only. */
  predicate Blank(s: string) {
    forall k :: 0 <= k < |s| ==> IsSpace(s[k])
  }

  /** `String#present?`. */
  predicate Present(s: string) {
    !Blank(s)
  }

  function Upper(c: char): char {
    if 'a' <= c <= 'z' then (c as int - 32) as char else c
  }

  function Lower(c: char): char {
    if 'A' <= c <= 'Z' then (c as int + 32) as char else c
  }

  function Upcase(s: string): (r: string)
    ensures |r| == |s| && forall k :: 0 <= k < |s| ==> r[k] == Upper(s[k])
  {
    seq(|s|, k requires 0 <= k < |s| => Upper(s[k]))
  }

  function Downcase(s: string): (r: string)
    ensures |r| == |s| && forall k :: 0 <= k < |s| ==> r[k] == Lower(s[k])
  {
    seq(|s|, k requires 0 <= k < |s| => Lower(s[k]))
  }

  /** The first position of `c` in `s`, or `|s|` when there is none. */
  function IndexOf(s: string, c: char): (i: nat)
    ensures i <= |s|
    ensures i < |s| ==> s[i] == c
    ensures forall j :: 0 <= j < i ==> s[j] != c
  {
    if |s| == 0 then 0
    else if s[0] == c then 0
    else 1 + IndexOf(s[1..], c)
  }

  lemma {:induction false} IndexOfAfter(a: string, b: string, c: char)
    requires c !in a
    ensures IndexOf(a + b, c) == |a| + IndexOf(b, c)
    decreases |a|
  {
    if |a| == 0 {
      assert a + b == b;
    } else {
      assert a[0] in a;
      assert (a + b)[1..] == a[1..] + b;
      IndexOfAfter(a[1..], b, c);
    }
  }

  /** `parts.join(sep)` for a one-character separator. */
  function Join(parts: seq<string>, sep: char): string
  {
    if |parts| == 0 then ""
    else if |parts| == 1 then parts[0]
    else parts[0] + [sep] + Join(parts[1..], sep)
  }

  /** Splitting on a one-character separator, keeping every field (at least one),
      including empty ones at either end. */
  function Fields(s: string, sep: char): (fs: seq<string>)
    ensures |fs| >= 1
    ensures forall k :: 0 <= k < |fs| ==> sep !in fs[k]
    decreases |s|
  {
    var i := IndexOf(s, sep);
    if i == |s| then [s] else [s[..i]] + Fields(s[i + 1..], sep)
  }

  lemma JoinCons(first: string, rest: seq<string>, sep: char)
    requires |rest| >= 1
    ensures Join([first] + rest, sep) == first + [sep] + Join(rest, sep)
  {
    assert ([first] + rest)[1..] == rest;
  }

  /** Splitting where the first separator is, or not splitting when there is none. */
  lemma FieldsStep(s: string, sep: char)
    ensures IndexOf(s, sep) == |s| ==> Fields(s, sep) == [s]
    ensures IndexOf(s, sep) < |s|
        ==> Fields(s, sep) == [s[..IndexOf(s, sep)]] + Fields(s[IndexOf(s, sep) + 1..], sep)
  {
  }

  lemma SplitAround(s: string, i: int)
    requires 0 <= i < |s|
    ensures s == s[..i] + [s[i]] + s[i + 1..]
  {
  }

  /** Joining the fields of `s` with the same separator gives `s` back. */
  lemma {:induction false} JoinFields(s: string, sep: char)
    ensures Join(Fields(s, sep), sep) == s
    decreases |s|
  {
    var i := IndexOf(s, sep);
    FieldsStep(s, sep);
    if i < |s| {
      var head, tail := s[..i], s[i + 1..];
      var fs := Fields(tail, sep);
      assert Fields(s, sep) == [head] + fs;
      JoinFields(tail, sep);
      JoinCons(head, fs, sep);
      SplitAround(s, i);
    }
  }

  /** A separator-free head followed by the separator splits off as the first field. */
  lemma FieldsAfterHead(head: string, tail: string, sep: char)
    requires sep !in head
    ensures Fields(head + [sep] + tail, sep) == [head] + Fields(tail, sep)
  {
    var s := head + [sep] + tail;
    assert s == head + ([sep] + tail);
    IndexOfAfter(head, [sep] + tail, sep);
    assert IndexOf([sep] + tail, sep) == 0;
    assert s[..|head|] == head;
    assert s[|head| + 1..] == tail;
    FieldsStep(s, sep);
  }

  /** Splitting a join of separator-free parts gives the parts back. */
  lemma {:induction false} FieldsJoin(parts: seq<string>, sep: char)
    requires |parts| >= 1
    requires forall k :: 0 <= k < |parts| ==> sep !in parts[k]
    ensures Fields(Join(parts, sep), sep) == parts
    decreases |parts|
  {
    if |parts| == 1 {
      var s := Join(parts, sep);
      assert s == parts[0];
      FieldsStep(s, sep);
    } else {
      var rest := parts[1..];
      assert forall k :: 0 <= k < |rest| ==> rest[k] == parts[k + 1];
      FieldsJoin(rest, sep);
      JoinCons(parts[0], rest, sep);
      assert parts == [parts[0]] + rest;
      FieldsAfterHead(parts[0], Join(rest, sep), sep);
    }
  }

  /** An occurrence of `c` in `a` is found before anything appended to `a`. */
  lemma {:induction false} IndexOfPrefix(a: string, b: string, c: char)
    requires c in a
    ensures IndexOf(a + b, c) == IndexOf(a, c)
    decreases |a|
  {
    if a[0] != c {
      assert (a + b)[1..] == a[1..] + b;
      assert c in a[1..] by {
        var k :| 0 <= k < |a| && a[k] == c;
        assert a[1..][k - 1] == c;
      }
      IndexOfPrefix(a[1..], b, c);
    }
  }

  lemma FieldsOfSepOnly(s: string, sep: char)
    requires sep !in s
    ensures Fields(s + [sep], sep) == [s, ""]
  {
    var t := s + [sep];
    IndexOfAfter(s, [sep], sep);
    FieldsStep(t, sep);
    assert t[..|s|] == s;
    assert t[|s| + 1..] == [];
    FieldsStep([], sep);
  }

  lemma FieldsAppendSepStep(s: string, sep: char)
    requires sep in s
    ensures var i := IndexOf(s, sep);
            Fields(s + [sep], sep) == [s[..i]] + Fields(s[i + 1..] + [sep], sep)
  {
    var t := s + [sep];
    var i := IndexOf(s, sep);
    IndexOfPrefix(s, [sep], sep);
    FieldsStep(t, sep);
    assert t[..i] == s[..i];
    assert t[i + 1..] == s[i + 1..] + [sep];
  }

  /** A trailing separator adds one empty field. */
  lemma {:induction false} FieldsAppendSep(s: string, sep: char)
    ensures Fields(s + [sep], sep) == Fields(s, sep) + [""]
    decreases |s|
  {
    if sep !in s {
      FieldsOfSepOnly(s, sep);
      assert IndexOf(s, sep) == |s|;
      FieldsStep(s, sep);
    } else {
      var i := IndexOf(s, sep);
      var head, tail := s[..i], s[i + 1..];
      FieldsAppendSepStep(s, sep);
      FieldsAppendSep(tail, sep);
      FieldsStep(s, sep);
      ConsAppend(head, Fields(tail, sep), "");
    }
  }

  lemma ConsAppend<T>(x: T, xs: seq<T>, y: T)
    ensures [x] + (xs + [y]) == ([x] + xs) + [y]
  {
  }

  /** `split` ignores a trailing separator. */
  lemma RubySplitAppendSep(s: string, sep: char)
    ensures RubySplit(s + [sep], sep) == RubySplit(s, sep)
  {
    FieldsAppendSep(s, sep);
    var fs := Fields(s, sep);
    assert (fs + [""])[..|fs|] == fs;
  }

  /** The trailing run of empty fields removed, as Ruby's `String#split` does. */
  function DropTrailingEmpty(fs: seq<string>): (r: seq<string>)
    ensures |r| <= |fs| && r == fs[..|r|]
    ensures |r| == 0 || r[|r| - 1] != ""
    ensures forall k :: |r| <= k < |fs| ==> fs[k] == ""
  {
    if |fs| > 0 && fs[|fs| - 1] == "" then DropTrailingEmpty(fs[..|fs| - 1]) else fs
  }

  /** `s.split(sep)` with a one-character string pattern and no limit. */
  function RubySplit(s: string, sep: char): seq<string>
  {
    DropTrailingEmpty(Fields(s, sep))
  }

  /** `Integer#to_s` for a natural number. */
  function Decimal(n: nat): (s: string)
    ensures |s| >= 1
    ensures forall k :: 0 <= k < |s| ==> '0' <= s[k] <= '9'
  {
    if n < 10 then [('0' as int + n) as char]
    else Decimal(n / 10) + [('0' as int + n % 10) as char]
  }

  predicate AllDigits(s: string) {
    forall k :: 0 <= k < |s| ==> '0' <= s[k] <= '9'
  }

  function ParseDecimal(s: string): nat
    requires AllDigits(s)
  {
    if |s| == 0 then 0
    else ParseDecimal(s[..|s| - 1]) * 10 + (s[|s| - 1] as int - '0' as int)
  }

  lemma {:induction false} ParseDecimalInverts(n: nat)
    ensures ParseDecimal(Decimal(n)) == n
  {
    if n >= 10 {
      var s := Decimal(n);
      assert s[..|s| - 1] == Decimal(n / 10);
      ParseDecimalInverts(n / 10);
    }
  }
}
