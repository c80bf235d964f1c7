/** Text helpers the paginator relies on: the decimal form of a page number,
    replace-every-occurrence substitution (split on the placeholder, join with
    the replacement) and ASCII lower-casing. */
module Strings {

  predicate IsDigit(c: char) {
    '0' <= c <= '9'
  }

  function DigitChar(d: int): (c: char)
    requires 0 <= d < 10
    ensures IsDigit(c) && c as int - '0' as int == d
  {
    ('0' as int + d) as char
  }

  /** Decimal digits of a natural number, most significant first, no leading zero. */
  function Digits(n: nat): (s: string)
    ensures |s| >= 1
    ensures forall i :: 0 <= i < |s| ==> IsDigit(s[i])
    decreases n
  {
    if n < 10 then [DigitChar(n)] else Digits(n / 10) + [DigitChar(n % 10)]
  }

  /** `String(n)` in JavaScript, `str(n)` in Python, an int in a PHP string context. */
  function DecimalString(n: int): (s: string)
    ensures |s| >= 1
    ensures n >= 0 ==> forall i :: 0 <= i < |s| ==> IsDigit(s[i])
    ensures n < 0 ==> s[0] == '-' && forall i :: 1 <= i < |s| ==> IsDigit(s[i])
  {
    if n < 0 then "-" + Digits(-n) else Digits(n)
  }

  /** Reads back a string of decimal digits. */
  function DigitsValue(s: string): int
    decreases |s|
  {
    if |s| == 0 then 0 else DigitsValue(s[..|s| - 1]) * 10 + (s[|s| - 1] as int - '0' as int)
  }

  function DecimalValue(s: string): int {
    if |s| > 0 && s[0] == '-' then -DigitsValue(s[1..]) else DigitsValue(s)
  }

  lemma {:induction false} DigitsRoundTrip(n: nat)
    ensures DigitsValue(Digits(n)) == n
    decreases n
  {
    if n >= 10 {
      var s := Digits(n);
      assert s[..|s| - 1] == Digits(n / 10);
      DigitsRoundTrip(n / 10);
    }
  }

  /** The decimal form loses nothing: reading it back gives the number, so
      distinct page numbers give distinct texts. */
  lemma DecimalRoundTrip(n: int)
    ensures DecimalValue(DecimalString(n)) == n
  {
    if n < 0 {
      DigitsRoundTrip(-n);
      assert DecimalString(n)[1..] == Digits(-n);
    } else {
      DigitsRoundTrip(n);
    }
  }

  /** `sep` occurs in `s` starting at index `i`. */
  predicate OccursAt(s: string, sep: string, i: int) {
    0 <= i && i + |sep| <= |s| && s[i..i + |sep|] == sep
  }

  /** `sep` occurs somewhere in `s`. */
  ghost predicate Occurs(s: string, sep: string) {
    exists i :: OccursAt(s, sep, i)
  }

  /** The pieces between the non-overlapping occurrences of `sep`, found left
      to right (JavaScript `split` with a non-empty separator). */
  function Split(s: string, sep: string): (parts: seq<string>)
    requires |sep| > 0
    ensures |parts| >= 1
    ensures parts[0] <= s
    decreases |s|
  {
    if |s| < |sep| then [s]
    else if s[..|sep|] == sep then [""] + Split(s[|sep|..], sep)
    else
      var rest := Split(s[1..], sep);
      [[s[0]] + rest[0]] + rest[1..]
  }

  /** The pieces with `sep` between each two (JavaScript `join`). */
  function Join(parts: seq<string>, sep: string): string
    decreases |parts|
  {
    if |parts| == 0 then ""
    else if |parts| == 1 then parts[0]
    else parts[0] + sep + Join(parts[1..], sep)
  }

  /** Every occurrence of `sep` in `s` replaced by `rep` (JavaScript
      `split(sep).join(rep)`, Python `str.replace`, PHP `str_replace`, which
      agree when `sep` is not empty). */
  function ReplaceAll(s: string, sep: string, rep: string): string
    requires |sep| > 0
  {
    Join(Split(s, sep), rep)
  }

  lemma JoinCons(c: char, parts: seq<string>, sep: string)
    requires |parts| >= 1
    ensures Join([[c] + parts[0]] + parts[1..], sep) == [c] + Join(parts, sep)
  {
    var ps := [[c] + parts[0]] + parts[1..];
    if |parts| > 1 {
      assert ps[1..] == parts[1..];
    }
  }

  /** Joining the pieces with the separator restores the string. */
  lemma {:induction false} SplitJoin(s: string, sep: string)
    requires |sep| > 0
    ensures Join(Split(s, sep), sep) == s
    decreases |s|
  {
    if |s| < |sep| {
    } else if s[..|sep|] == sep {
      var tail := s[|sep|..];
      var rest := Split(tail, sep);
      assert ([""] + rest)[1..] == rest;
      calc {
        Join(Split(s, sep), sep);
        Join([""] + rest, sep);
        "" + sep + Join(rest, sep);
        { SplitJoin(tail, sep); }
        sep + tail;
        s;
      }
    } else {
      var tail := s[1..];
      var rest := Split(tail, sep);
      calc {
        Join(Split(s, sep), sep);
        Join([[s[0]] + rest[0]] + rest[1..], sep);
        { JoinCons(s[0], rest, sep); }
        [s[0]] + Join(rest, sep);
        { SplitJoin(tail, sep); }
        [s[0]] + tail;
        s;
      }
    }
  }

  lemma OccursInTail(s: string, sep: string)
    requires |s| >= 1 && Occurs(s[1..], sep)
    ensures Occurs(s, sep)
  {
    var i :| OccursAt(s[1..], sep, i);
    assert s[i + 1..i + 1 + |sep|] == s[1..][i..i + |sep|];
    assert OccursAt(s, sep, i + 1);
  }

  /** A piece that starts a string at a point where the separator does not
      start and whose tail is free of the separator is free of it. */
  lemma HeadPieceFree(s: string, sep: string, tail: string)
    requires |sep| > 0 && |s| >= 1 && [s[0]] + tail <= s
    requires !OccursAt(s, sep, 0) && !Occurs(tail, sep)
    ensures !Occurs([s[0]] + tail, sep)
  {
    var head := [s[0]] + tail;
    if |sep| <= |head| {
      assert head[..|sep|] == s[..|sep|];
    }
    forall i | 0 < i ensures OccursAt(head, sep, i) ==> OccursAt(tail, sep, i - 1) {
      if i + |sep| <= |head| {
        assert tail[i - 1..i - 1 + |sep|] == head[i..i + |sep|];
      }
    }
  }

  /** No piece contains the separator: every occurrence was cut out. */
  lemma {:induction false} SplitPiecesFree(s: string, sep: string)
    requires |sep| > 0
    ensures forall k :: 0 <= k < |Split(s, sep)| ==> !Occurs(Split(s, sep)[k], sep)
    decreases |s|
  {
    var parts := Split(s, sep);
    if |s| < |sep| {
      assert parts == [s];
      forall i | OccursAt(s, sep, i) ensures false { }
    } else if s[..|sep|] == sep {
      SplitPiecesFree(s[|sep|..], sep);
      var rest := Split(s[|sep|..], sep);
      assert parts == [""] + rest;
      forall k | 0 <= k < |parts| ensures !Occurs(parts[k], sep) {
        if k > 0 {
          assert parts[k] == rest[k - 1];
        } else {
          forall i | OccursAt(parts[0], sep, i) ensures false { }
        }
      }
    } else {
      SplitPiecesFree(s[1..], sep);
      var rest := Split(s[1..], sep);
      assert parts == [[s[0]] + rest[0]] + rest[1..];
      HeadPieceFree(s, sep, rest[0]);
      forall k | 0 <= k < |parts| ensures !Occurs(parts[k], sep) {
        if k > 0 { assert parts[k] == rest[k]; }
      }
    }
  }

  /** A string without the separator is one piece. */
  lemma {:induction false} SplitWithoutSeparator(s: string, sep: string)
    requires |sep| > 0 && !Occurs(s, sep)
    ensures Split(s, sep) == [s]
    decreases |s|
  {
    if |s| >= |sep| {
      assert !OccursAt(s, sep, 0);
      assert s[..|sep|] != sep;
      if Occurs(s[1..], sep) { OccursInTail(s, sep); }
      SplitWithoutSeparator(s[1..], sep);
      assert [s[0]] + s[1..] == s;
    }
  }

  /** `i` is where `sep` first occurs in `s`. */
  predicate FirstOccurrence(s: string, sep: string, i: int) {
    OccursAt(s, sep, i) && forall j :: 0 <= j < i ==> !OccursAt(s, sep, j)
  }

  lemma {:induction false} FirstOccurrenceAtOrBefore(s: string, sep: string, i: int)
    requires OccursAt(s, sep, i)
    ensures exists k :: 0 <= k <= i && FirstOccurrence(s, sep, k)
    decreases i
  {
    if !FirstOccurrence(s, sep, i) {
      var j :| 0 <= j < i && OccursAt(s, sep, j);
      FirstOccurrenceAtOrBefore(s, sep, j);
    }
  }

  /** A separator that occurs has a first occurrence. */
  lemma FirstOccurrenceExists(s: string, sep: string)
    requires Occurs(s, sep)
    ensures exists i :: FirstOccurrence(s, sep, i)
  {
    var i :| OccursAt(s, sep, i);
    FirstOccurrenceAtOrBefore(s, sep, i);
  }

  lemma TailSlice(s: string, a: int, b: int)
    requires 1 <= a <= b <= |s|
    ensures s[1..][a - 1..b - 1] == s[a..b]
  {
    var t, u := s[1..][a - 1..b - 1], s[a..b];
    assert |t| == |u|;
    assert forall k :: 0 <= k < |t| ==> t[k] == u[k];
  }

  /** Dropping a first character that does not start the first occurrence
      moves that occurrence one place left. */
  lemma FirstOccurrenceInTail(s: string, sep: string, i: int)
    requires |sep| > 0 && i > 0 && FirstOccurrence(s, sep, i)
    ensures FirstOccurrence(s[1..], sep, i - 1)
  {
    var tail := s[1..];
    TailSlice(s, i, i + |sep|);
    assert OccursAt(tail, sep, i - 1);
    forall j | 0 <= j < i - 1 ensures !OccursAt(tail, sep, j) {
      if j + |sep| <= |tail| {
        TailSlice(s, j + 1, j + 1 + |sep|);
        assert !OccursAt(s, sep, j + 1);
      }
    }
  }

  /** The first piece ends at the first occurrence, the occurrence is
      consumed, and splitting goes on after it: matches are taken leftmost
      first and never share characters. */
  lemma {:induction false} SplitAtFirst(s: string, sep: string, i: int)
    requires |sep| > 0 && FirstOccurrence(s, sep, i)
    ensures Split(s, sep) == [s[..i]] + Split(s[i + |sep|..], sep)
    decreases i
  {
    if i == 0 {
      assert s[..|sep|] == sep;
    } else {
      assert !OccursAt(s, sep, 0);
      assert s[..|sep|] != sep;
      var tail, after := s[1..], s[i + |sep|..];
      assert tail[i - 1 + |sep|..] == after;
      assert [s[0]] + tail[..i - 1] == s[..i];
      var rest := Split(tail, sep);
      calc {
        Split(s, sep);
        [[s[0]] + rest[0]] + rest[1..];
        { FirstOccurrenceInTail(s, sep, i);
          SplitAtFirst(tail, sep, i - 1);
          var back := Split(after, sep);
          assert rest == [tail[..i - 1]] + back;
          assert rest[0] == tail[..i - 1] && rest[1..] == back; }
        [[s[0]] + tail[..i - 1]] + Split(after, sep);
        [s[..i]] + Split(after, sep);
      }
    }
  }

  /** Replacement works through the first occurrence and then goes on after
      it; together with `ReplaceAllWithoutSeparator` and
      `FirstOccurrenceExists` this fixes the result for every input. */
  lemma ReplaceAllAtFirst(s: string, sep: string, rep: string, i: int)
    requires |sep| > 0 && FirstOccurrence(s, sep, i)
    ensures ReplaceAll(s, sep, rep) == s[..i] + rep + ReplaceAll(s[i + |sep|..], sep, rep)
  {
    SplitAtFirst(s, sep, i);
    var rest := Split(s[i + |sep|..], sep);
    assert ([s[..i]] + rest)[1..] == rest;
  }

  /** Replacing every occurrence both cuts the string at each occurrence of
      `sep` and puts `rep` in every cut: the same placeholder-free pieces,
      joined by `sep`, give back `s`. */
  lemma ReplaceAllPieces(s: string, sep: string, rep: string)
    requires |sep| > 0
    ensures exists parts: seq<string> ::
      && |parts| >= 1
      && (forall k :: 0 <= k < |parts| ==> !Occurs(parts[k], sep))
      && Join(parts, sep) == s
      && ReplaceAll(s, sep, rep) == Join(parts, rep)
  {
    SplitPiecesFree(s, sep);
    SplitJoin(s, sep);
    var parts := Split(s, sep);
    assert Join(parts, sep) == s;
  }

  /** A string without the separator is left as it is. */
  lemma ReplaceAllWithoutSeparator(s: string, sep: string, rep: string)
    requires |sep| > 0 && !Occurs(s, sep)
    ensures ReplaceAll(s, sep, rep) == s
  {
    SplitWithoutSeparator(s, sep);
  }

  lemma JoinNonEmpty(parts: seq<string>, sep: string)
    requires |parts| >= 2 && |sep| > 0
    ensures |Join(parts, sep)| > 0
  {
  }

  /** With a non-empty replacement the result is empty exactly when the
      string is. */
  lemma ReplaceAllEmpty(s: string, sep: string, rep: string)
    requires |sep| > 0 && |rep| > 0
    ensures ReplaceAll(s, sep, rep) == "" <==> s == ""
  {
    var parts := Split(s, sep);
    if |parts| >= 2 {
      JoinNonEmpty(parts, rep);
    } else {
      SplitJoin(s, sep);
    }
  }

  function LowerChar(c: char): char {
    if 'A' <= c <= 'Z' then (c as int - 'A' as int + 'a' as int) as char else c
  }

  /** ASCII lower-casing (`toLowerCase` restricted to A-Z): each upper-case
      letter becomes its lower-case letter, everything else is kept. */
  function AsciiLower(s: string): (r: string)
    ensures |r| == |s|
    ensures forall i :: 0 <= i < |s| ==> !('A' <= r[i] <= 'Z')
    ensures forall i :: 0 <= i < |s| && !('A' <= s[i] <= 'Z') ==> r[i] == s[i]
    ensures forall i :: 0 <= i < |s| && 'A' <= s[i] <= 'Z' ==> r[i] as int == s[i] as int + 32
  {
    seq(|s|, i requires 0 <= i < |s| => LowerChar(s[i]))
  }

  /** `a` and `b` differ at most in the letter case of ASCII letters. */
  predicate SameIgnoringAsciiCase(a: string, b: string) {
    |a| == |b| && forall i :: 0 <= i < |a| ==> LowerChar(a[i]) == LowerChar(b[i])
  }

  /** Strings that differ only in ASCII letter case lower-case alike. */
  lemma AsciiLowerCaseBlind(a: string, b: string)
    requires SameIgnoringAsciiCase(a, b)
    ensures AsciiLower(a) == AsciiLower(b)
  {
    assert forall i :: 0 <= i < |a| ==> AsciiLower(a)[i] == LowerChar(a[i]) == LowerChar(b[i]) == AsciiLower(b)[i];
  }

  lemma AsciiLowerIdempotent(s: string)
    ensures AsciiLower(AsciiLower(s)) == AsciiLower(s)
  {
  }

  /** The pieces written one after the other (the `html +=` of a loop). */
  function Concat(pieces: seq<string>): string
    decreases |pieces|
  {
    if pieces == [] then "" else Concat(pieces[..|pieces| - 1]) + pieces[|pieces| - 1]
  }

  /** Writing one more piece appends it. */
  lemma ConcatPrefix(pieces: seq<string>, i: int)
    requires 0 <= i < |pieces|
    ensures Concat(pieces[..i + 1]) == Concat(pieces[..i]) + pieces[i]
  {
    assert pieces[..i + 1][..i] == pieces[..i];
  }

  /** One more piece written after a head and the pieces before it. */
  lemma AppendPiece(head: string, pieces: seq<string>, i: int)
    requires 0 <= i < |pieces|
    ensures head + Concat(pieces[..i]) + pieces[i] == head + Concat(pieces[..i + 1])
  {
    ConcatPrefix(pieces, i);
  }
}
