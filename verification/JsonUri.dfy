/**
 JSON URIs: a location and a fragment, updated relative to an earlier URI.

 The first half is the in-place percent decoding of fragments, the second the
 parsing of locations and the question which of them survive being printed and
 parsed again.  Pointer fragments are kept as text.
 */
module JsonUri {
  import opened Wrappers
  import opened Text

  // --------------------------------------------------------- percent decoding

  /** The largest `std::size_t`, which is also `npos`. */
  const NPOS: nat := 0xFFFF_FFFF_FFFF_FFFF

  /** Unsigned subtraction wraps around below zero. */
  function Minus(n: nat, k: nat): nat
    requires n <= NPOS && k <= NPOS
  {
    if n >= k then n - k else n + NPOS + 1 - k
  }

  /** `pointer.rfind('%', pos)` */
  function LastPercent(pointer: string, pos: nat): (r: nat)
    requires |pointer| < NPOS
    ensures r == NPOS || (r < |pointer| && r <= pos && pointer[r] == '%')
    ensures forall i :: 0 <= i < |pointer| && i <= pos && pointer[i] == '%' ==> r != NPOS && i <= r
  {
    match FindLast(pointer, '%', if pos < |pointer| then pos + 1 else |pointer|)
    case None => NPOS
    case Some(i) => i
  }

  function HexDigit(c: char): Option<nat> {
    if '0' <= c <= '9' then Some(c as int - '0' as int)
    else if 'a' <= c <= 'f' then Some(c as int - 'a' as int + 10)
    else if 'A' <= c <= 'F' then Some(c as int - 'A' as int + 10)
    else None
  }

  function HexPrefix(s: string, value: nat): nat {
    if s == [] || HexDigit(s[0]).None? then value
    else HexPrefix(s[1..], 16 * value + HexDigit(s[0]).value)
  }

  function SkipSpace(s: string): string {
    if s != [] && (s[0] == ' ' || '\t' <= s[0] <= '\r') then SkipSpace(s[1..]) else s
  }

  /** `strtoul` to base 16 on at most two characters, cut down to one byte. */
  function HexByte(hex: string): char {
    var s := SkipSpace(hex);
    var negative := s != [] && s[0] == '-';
    var digits := if s != [] && (s[0] == '-' || s[0] == '+') then s[1..] else s;
    var value := HexPrefix(digits, 0) % 256;
    (if negative then (256 - value) % 256 else value) as char
  }

  /** The loop variables of the decoding loop. */
  datatype Decoding = Decoding(pointer: string, pos: nat)

  /** The '%' at `pos` and the two characters after it become one; within the last two characters it is left alone. */
  function Handled(p: string, pos: nat): (r: string)
    requires pos < |p| < NPOS
    ensures pos < |r| <= |p| && r[..pos] == p[..pos]
  {
    if pos >= Minus(|p|, 2) then p
    else
      var end := if pos + 3 <= |p| then pos + 3 else |p|;
      p[..pos] + [HexByte(p[pos + 1..end])] + p[end..]
  }

  /** One round of the decoding loop; `None` is the `break`. */
  function DecodeRound(d: Decoding): (r: Option<Decoding>)
    requires |d.pointer| < NPOS && d.pos <= NPOS
    ensures r.Some? ==> |r.value.pointer| <= |d.pointer| && r.value.pos <= NPOS
  {
    var pos := LastPercent(d.pointer, d.pos);
    if pos == NPOS then None else Some(Decoding(Handled(d.pointer, pos), Minus(pos, 1)))
  }

  /** One pass, from right to left, over every '%' among the first `n` characters. */
  function Sweep(p: string, n: nat): (r: string)
    requires n <= |p| < NPOS
    ensures |r| <= |p| && (p != "" ==> r != "")
    decreases n
  {
    if n == 0 then p
    else if p[n - 1] != '%' then Sweep(p, n - 1)
    else Sweep(Handled(p, n - 1), n - 1)
  }

  /**
   Whether the loop ends.  A pass that reaches a '%' in first place starts over, as the
   position wraps around, and two characters with a '%' in first place stay as they are.
   */
  predicate Ends(p: string)
    requires |p| < NPOS
    decreases |p|, StartsWithPercent(p)
  {
    !StartsWithPercent(p) || var q := Sweep(p, |p|); !Hangs(q) && (PassShrinks(p); Ends(q))
  }

  predicate StartsWithPercent(p: string) {
    p != "" && p[0] == '%'
  }

  predicate Hangs(p: string) {
    |p| == 2 && p[0] == '%'
  }

  /** What the loop leaves if it ends. */
  function Outcome(p: string): (r: string)
    requires |p| < NPOS && Ends(p)
    ensures |r| <= |p|
    decreases |p|, StartsWithPercent(p)
  {
    if StartsWithPercent(p) then PassShrinks(p); Outcome(Sweep(p, |p|)) else Sweep(p, |p|)
  }

  /** A pass over a text with '%' in first place shortens it, unless it has two characters or one. */
  lemma PassShrinks(p: string)
    requires |p| < NPOS && StartsWithPercent(p)
    ensures var q := Sweep(p, |p|);
      Hangs(q) || |q| < |p| || (|q| == |p| == 1 && !StartsWithPercent(q))
  {
    SweepFirst(p, |p|);
  }

  /** Up to its first character a pass keeps that character and at least two, if there were two. */
  lemma {:induction false} SweepFirst(p: string, n: nat)
    requires 0 < n <= |p| < NPOS && p[0] == '%'
    ensures var q := Sweep(p, n);
      Hangs(q) || |q| < |p| || (|q| == |p| == 1 && !StartsWithPercent(q))
    decreases n
  {
    if n > 1 {
      var p' := if p[n - 1] == '%' then Handled(p, n - 1) else p;
      assert p'[0] == p'[..n - 1][0] == p[0];
      SweepFirst(p', n - 1);
    } else {
      var q := Handled(p, 0);
      assert Sweep(p, 1) == Sweep(q, 0) == q;
      NoByteIsZero();
    }
  }

  lemma NoByteIsZero()
    ensures HexByte("") == 0 as char != '%'
  {
  }

  // The same for the middle of a pass: the first `n` characters are still to be looked at.

  function Left(d: Decoding): (n: nat)
    requires |d.pointer| < NPOS && d.pos <= NPOS
    ensures n <= |d.pointer|
  {
    if d.pos < |d.pointer| then d.pos + 1 else |d.pointer|
  }

  predicate EndsFrom(d: Decoding)
    requires |d.pointer| < NPOS && d.pos <= NPOS
  {
    var n, q := Left(d), Sweep(d.pointer, Left(d));
    n == 0 || d.pointer[0] != '%' || (!Hangs(q) && Ends(q))
  }

  function OutcomeFrom(d: Decoding): string
    requires |d.pointer| < NPOS && d.pos <= NPOS && EndsFrom(d)
  {
    var n, q := Left(d), Sweep(d.pointer, Left(d));
    if n == 0 || d.pointer[0] != '%' then q else Outcome(q)
  }

  /** Falls with every round, if the loop ends: a later pass is over a shorter text. */
  function Passes(d: Decoding): nat
    requires |d.pointer| < NPOS && d.pos <= NPOS
  {
    var n, q := Left(d), Sweep(d.pointer, Left(d));
    if n == 0 || d.pointer[0] != '%' then 0 else 1 + |q| + (if StartsWithPercent(q) then 1 else 0)
  }

  lemma SweepNone(p: string)
    requires |p| < NPOS
    ensures Sweep(p, 0) == p
  {
  }

  lemma {:induction false} SweepSkips(p: string, n: nat, m: nat)
    requires m <= n <= |p| < NPOS && forall i :: m <= i < n ==> p[i] != '%'
    ensures Sweep(p, n) == Sweep(p, m)
    decreases n
  {
    if m < n {
      SweepSkips(p, n - 1, m);
    }
  }

  lemma HangingNeverEnds(p: string)
    requires |p| < NPOS
    ensures Hangs(p) ==> !Ends(p)
  {
    if Hangs(p) {
      assert Handled(p, 0) == p && Handled(p, 1) == p;
      assert Sweep(p, 1) == Sweep(p, 0) == p;
    }
  }

  /** A round changes neither whether the loop ends nor what it leaves. */
  lemma RoundKeeps(d: Decoding)
    requires |d.pointer| < NPOS && d.pos <= NPOS
    ensures DecodeRound(d) == None ==> EndsFrom(d) && OutcomeFrom(d) == d.pointer
    ensures DecodeRound(d).Some? ==>
      var d' := DecodeRound(d).value;
      && (EndsFrom(d) <==> EndsFrom(d'))
      && (EndsFrom(d) ==> OutcomeFrom(d') == OutcomeFrom(d))
      && (EndsFrom(d) ==> Passes(d') < Passes(d) || (Passes(d') == Passes(d) && Left(d') < Left(d)))
  {
    hide Handled, HexByte;
    var p, n, pos := d.pointer, Left(d), LastPercent(d.pointer, d.pos);
    if pos == NPOS {
      SweepSkips(p, n, 0);
      if p != "" && n > 0 {
        assert p[0] != '%';
      }
    } else {
      SweepSkips(p, n, pos + 1);
      var p' := Handled(p, pos);
      assert Sweep(p, n) == Sweep(p', pos);
      if pos > 0 {
        assert p'[0] == p'[..pos][0] == p[..pos][0] == p[0];
      } else {
        assert p[0] == '%' && Sweep(p, n) == p';
        assert Left(DecodeRound(d).value) == |p'|;
        HangingNeverEnds(p');
        if StartsWithPercent(p') {
          PassShrinks(p');
        }
      }
    }
  }

  /**
   The right-to-left loop, on every fragment on which it ends; these include all JSON pointers.
   */
  method DecodeInPlace(fragment: string) returns (pointer: string)
    requires |fragment| < NPOS && Ends(fragment)
    ensures pointer == Outcome(fragment)
  {
    hide HexByte, Ends, Outcome, EndsFrom, OutcomeFrom, Passes, DecodeRound;
    pointer := fragment;
    var pos: nat := Minus(|pointer|, 1);
    StartsFromEnd(fragment);
    while true
      invariant |pointer| < NPOS && pos <= NPOS
      invariant EndsFrom(Decoding(pointer, pos)) && OutcomeFrom(Decoding(pointer, pos)) == Outcome(fragment)
      decreases Passes(Decoding(pointer, pos)), Left(Decoding(pointer, pos))
    {
      ghost var d := Decoding(pointer, pos);
      RoundKeeps(d);
      RoundIs(d);
      pos := LastPercent(pointer, pos);
      if pos == NPOS {
        break;
      }
      if pos >= Minus(|pointer|, 2) {
        pos := Minus(pos, 1);
        continue;
      }
      var end := if pos + 3 <= |pointer| then pos + 3 else |pointer|;
      var byte := HexByte(pointer[pos + 1..end]);
      pointer := pointer[..pos] + [byte] + pointer[end..];
      pos := Minus(pos, 1);
    }
  }

  lemma RoundIs(d: Decoding)
    requires |d.pointer| < NPOS && d.pos <= NPOS
    ensures var pos := LastPercent(d.pointer, d.pos);
      DecodeRound(d) == if pos == NPOS then None else Some(Decoding(Handled(d.pointer, pos), Minus(pos, 1)))
  {
  }

  /** The loop starts at the last character. */
  function Beginning(fragment: string): (d: Decoding)
    requires |fragment| < NPOS
    ensures d.pos <= NPOS
  {
    Decoding(fragment, Minus(|fragment|, 1))
  }

  lemma StartsFromEnd(fragment: string)
    requires |fragment| < NPOS
    ensures EndsFrom(Beginning(fragment)) <==> Ends(fragment)
    ensures Ends(fragment) ==> OutcomeFrom(Beginning(fragment)) == Outcome(fragment)
  {
    assert Left(Beginning(fragment)) == |fragment|;
  }

  // ------------------------------------------------------ rounds of the loop

  /** The state after `n` rounds, or `None` if the loop has ended before. */
  ghost function Rounds(d: Decoding, n: nat): (r: Option<Decoding>)
    requires |d.pointer| < NPOS && d.pos <= NPOS
    ensures r.Some? ==> |r.value.pointer| < NPOS && r.value.pos <= NPOS
    decreases n
  {
    if n == 0 then Some(d)
    else match DecodeRound(d)
      case None => None
      case Some(d') => Rounds(d', n - 1)
  }

  /** The loop is left after `n` rounds with the text `p`. */
  ghost predicate LeavesAfter(d: Decoding, p: string, n: nat)
    requires |d.pointer| < NPOS && d.pos <= NPOS
  {
    Rounds(d, n).Some? && DecodeRound(Rounds(d, n).value) == None && Rounds(d, n).value.pointer == p
  }

  ghost predicate Leaves(fragment: string, p: string)
    requires |fragment| < NPOS
  {
    exists n: nat :: LeavesAfter(Beginning(fragment), p, n)
  }

  lemma {:induction false} LeavesOutcome(d: Decoding, p: string, n: nat)
    requires |d.pointer| < NPOS && d.pos <= NPOS && LeavesAfter(d, p, n)
    ensures EndsFrom(d) && OutcomeFrom(d) == p
    decreases n
  {
    hide DecodeRound, EndsFrom, OutcomeFrom, Passes;
    RoundKeeps(d);
    if n > 0 {
      LeavesOutcome(DecodeRound(d).value, p, n - 1);
    }
  }

  lemma {:induction false} EndsLeaves(d: Decoding) returns (n: nat)
    requires |d.pointer| < NPOS && d.pos <= NPOS && EndsFrom(d)
    ensures LeavesAfter(d, OutcomeFrom(d), n)
    decreases Passes(d), Left(d)
  {
    hide DecodeRound, EndsFrom, OutcomeFrom, Passes;
    RoundKeeps(d);
    n := 0;
    if DecodeRound(d).Some? {
      n := EndsLeaves(DecodeRound(d).value);
      n := n + 1;
    }
  }

  /** The rounds of the loop end, and leave a text, exactly as `Ends` and `Outcome` say. */
  lemma LeavesIff(fragment: string, p: string)
    requires |fragment| < NPOS
    ensures Leaves(fragment, p) <==> Ends(fragment) && p == Outcome(fragment)
  {
    hide Ends, Outcome, EndsFrom, OutcomeFrom, LeavesAfter;
    var d := Beginning(fragment);
    StartsFromEnd(fragment);
    if n: nat :| LeavesAfter(d, p, n) {
      LeavesOutcome(d, p, n);
    }
    if Ends(fragment) {
      var n := EndsLeaves(d);
    }
  }

  /** The loop goes on for ever exactly if some pass leaves two characters with a '%' in first place. */
  lemma RunsForEverIff(fragment: string)
    requires |fragment| < NPOS
    ensures (forall n: nat :: Rounds(Beginning(fragment), n).Some?) <==> SomePassHangs(fragment)
  {
    hide Ends, EndsFrom, OutcomeFrom, Rounds;
    var d := Beginning(fragment);
    StartsFromEnd(fragment);
    EndsIffNoPassHangs(fragment);
    if Ends(fragment) {
      var n := EndsLeaves(d);
      OneMoreRound(d, n);
    } else {
      forall n: nat
        ensures Rounds(d, n).Some?
      {
        NeverEnds(d, n);
      }
    }
  }

  lemma {:induction false} OneMoreRound(d: Decoding, n: nat)
    requires |d.pointer| < NPOS && d.pos <= NPOS && Rounds(d, n).Some? && DecodeRound(Rounds(d, n).value) == None
    ensures Rounds(d, n + 1) == None
    decreases n
  {
    hide DecodeRound;
    if n > 0 {
      OneMoreRound(DecodeRound(d).value, n - 1);
    }
  }

  lemma {:induction false} NeverEnds(d: Decoding, n: nat)
    requires |d.pointer| < NPOS && d.pos <= NPOS && !EndsFrom(d)
    ensures Rounds(d, n).Some?
    decreases n
  {
    hide DecodeRound, EndsFrom, OutcomeFrom, Passes;
    if n > 0 {
      RoundKeeps(d);
      NeverEnds(DecodeRound(d).value, n - 1);
    }
  }

  /** The text after `n` passes, as long as each before has a '%' in first place. */
  function AfterPasses(p: string, n: nat): (r: Option<string>)
    requires |p| < NPOS
    ensures r.Some? ==> |r.value| < NPOS
    decreases n
  {
    if n == 0 then Some(p)
    else if !StartsWithPercent(p) then None
    else AfterPasses(Sweep(p, |p|), n - 1)
  }

  ghost predicate SomePassHangs(p: string)
    requires |p| < NPOS
  {
    exists n: nat :: n > 0 && AfterPasses(p, n).Some? && Hangs(AfterPasses(p, n).value)
  }

  lemma {:induction false} EndsIffNoPassHangs(p: string)
    requires |p| < NPOS
    ensures Ends(p) <==> !SomePassHangs(p)
    decreases |p|, StartsWithPercent(p)
  {
    hide Sweep;
    if StartsWithPercent(p) {
      var q := Sweep(p, |p|);
      PassShrinks(p);
      assert AfterPasses(q, 0) == Some(q);
      assert AfterPasses(p, 1) == Some(q);
      if !Hangs(q) {
        EndsIffNoPassHangs(q);
        if n: nat :| n > 0 && AfterPasses(q, n).Some? && Hangs(AfterPasses(q, n).value) {
          assert AfterPasses(p, n + 1) == AfterPasses(q, n);
        }
        if n: nat :| n > 0 && AfterPasses(p, n).Some? && Hangs(AfterPasses(p, n).value) {
          assert AfterPasses(p, n) == AfterPasses(q, n - 1);
        }
      }
    }
  }

  // --------------------------------------------------- against one decoding

  /** `pointer` is `fragment` with everything from position `rest`, where a triple starts, decoded. */
  ghost predicate DecodedFrom(fragment: string, rest: nat, pointer: string) {
    && rest <= |fragment|
    && (rest < |fragment| ==> fragment[rest] == '%')
    && pointer == fragment[..rest] + DecodeForward(fragment[rest..])
  }

  lemma DecodedAtEnd(fragment: string)
    ensures DecodedFrom(fragment, |fragment|, fragment)
  {
    assert fragment[|fragment|..] == [];
  }

  /** Decoding the last '%' before `rest` moves the decoded part down to it. */
  lemma RoundDecodes(fragment: string, rest: nat, pointer: string, pos: nat)
    requires WellFormedTriples(fragment) && DecodedFrom(fragment, rest, pointer)
    requires pos < rest && fragment[pos] == '%' && forall i :: pos < i < rest ==> fragment[i] != '%'
    ensures pos + 3 <= rest <= |pointer|
    ensures DecodedFrom(fragment, pos, pointer[..pos] + [HexByte(pointer[pos + 1..pos + 3])] + pointer[pos + 3..])
  {
    assert pos + 3 <= rest;
    assert pointer[pos + 1..pos + 3] == fragment[pos..][1..3];
    assert pointer[pos + 3..] == fragment[pos + 3..rest] + DecodeForward(fragment[rest..]);
    ForwardOverPlain(fragment, pos + 3, rest);
    assert fragment[pos..][3..] == fragment[pos + 3..];
    assert pointer[..pos] == fragment[..pos];
  }

  lemma NoPercentLeft(fragment: string, rest: nat, pointer: string)
    requires DecodedFrom(fragment, rest, pointer) && forall i :: 0 <= i < rest ==> fragment[i] != '%'
    ensures pointer == DecodeForward(fragment)
  {
    ForwardOverPlain(fragment, 0, rest);
    assert fragment[0..] == fragment && fragment[0..rest] == fragment[..rest];
  }

  /** Every '%' is followed by two hexadecimal digits. */
  predicate WellFormedTriples(s: string) {
    forall i :: 0 <= i < |s| && s[i] == '%' ==>
      i + 2 < |s| && HexDigit(s[i + 1]).Some? && HexDigit(s[i + 2]).Some?
  }

  /** Section 2.1 of RFC 3986: each triple, from left to right, stands for one byte. */
  function DecodeForward(s: string): string {
    if s == [] then []
    else if s[0] == '%' && |s| >= 3 then [HexByte(s[1..3])] + DecodeForward(s[3..])
    else [s[0]] + DecodeForward(s[1..])
  }

  /**
   What becomes of two characters that are not both hexadecimal digits: a digit after white space or a sign,
   or in front of anything else, counts alone, and all the rest is the byte 0.
   */
  lemma OtherBytes(a: char, b: char)
    requires HexDigit(a).None? || HexDigit(b).None?
    ensures HexByte([a, b]) as int ==
      if HexDigit(a).Some? then HexDigit(a).value
      else if HexDigit(b).None? then 0
      else if a == '-' then (256 - HexDigit(b).value) % 256
      else if a == '+' || a == ' ' || '\t' <= a <= '\r' then HexDigit(b).value
      else 0
  {
    var hex := [a, b];
    assert hex[1..] == [b] && [b][1..] == [];
    assert HexPrefix([b], 0) == if HexDigit(b).Some? then HexDigit(b).value else 0;
    if HexDigit(a).Some? {
      assert HexPrefix(hex, 0) == HexPrefix([b], HexDigit(a).value) == HexDigit(a).value;
    } else {
      assert HexPrefix(hex, 0) == 0;
      assert SkipSpace([b]) == if b == ' ' || '\t' <= b <= '\r' then [] else [b];
    }
  }

  /** The bytes of a triple of hexadecimal digits. */
  lemma TripleByte(a: char, b: char)
    requires HexDigit(a).Some? && HexDigit(b).Some?
    ensures HexByte([a, b]) as int == 16 * HexDigit(a).value + HexDigit(b).value
  {
    assert [a, b][1..] == [b];
    assert HexPrefix([b], HexDigit(a).value) == 16 * HexDigit(a).value + HexDigit(b).value;
    assert HexPrefix([a, b], 0) == HexPrefix([b], HexDigit(a).value);
  }

  lemma {:induction false} ForwardOverPlain(s: string, from: nat, until: nat)
    requires from <= until <= |s|
    requires forall i :: from <= i < until ==> s[i] != '%'
    ensures DecodeForward(s[from..]) == s[from..until] + DecodeForward(s[until..])
    decreases until - from
  {
    if from < until {
      ForwardOverPlain(s, from + 1, until);
      assert s[from..][1..] == s[from + 1..];
      assert s[from..until] == [s[from]] + s[from + 1..until];
    }
  }

  /** On well-formed triples one pass is the left-to-right decoding. */
  lemma SweepIsForward(fragment: string)
    requires |fragment| < NPOS && WellFormedTriples(fragment)
    ensures Sweep(fragment, |fragment|) == DecodeForward(fragment)
  {
    DecodedAtEnd(fragment);
    SweepDecodes(fragment, |fragment|, |fragment|, fragment);
  }

  lemma {:induction false} SweepDecodes(fragment: string, rest: nat, n: nat, p: string)
    requires |fragment| < NPOS && |p| <= |fragment|
    requires WellFormedTriples(fragment) && DecodedFrom(fragment, rest, p)
    requires n <= rest <= |p| && forall i :: n <= i < rest ==> fragment[i] != '%'
    ensures Sweep(p, n) == DecodeForward(fragment)
    decreases n
  {
    hide HexByte, WellFormedTriples, DecodeForward;
    if n == 0 {
      NoPercentLeft(fragment, rest, p);
    } else {
      assert p[n - 1] == p[..rest][n - 1] == fragment[..rest][n - 1] == fragment[n - 1] by {
        assert p[..rest] == fragment[..rest];
      }
      if p[n - 1] == '%' {
        RoundDecodes(fragment, rest, p, n - 1);
        SweepDecodes(fragment, n - 1, n - 1, Handled(p, n - 1));
      } else {
        SweepDecodes(fragment, rest, n - 1, p);
      }
    }
  }

  /** Every '%' is one that a pass leaves alone, and none is in first place. */
  predicate Settled(p: string) {
    forall i :: 0 <= i < |p| && p[i] == '%' ==> 0 < i && |p| <= i + 2
  }

  /**
   The loop leaves the left-to-right decoding of a well-formed fragment exactly if it does not
   start over, or starting over finds nothing to do: no fragment that starts with '%' and
   whose decoding has a '%' in first place, or before its last two characters, qualifies.
   */
  lemma LeavesForwardIff(fragment: string)
    requires |fragment| < NPOS && WellFormedTriples(fragment)
    ensures Leaves(fragment, DecodeForward(fragment)) <==>
        !StartsWithPercent(fragment) || Settled(DecodeForward(fragment))
  {
    LeavesIff(fragment, DecodeForward(fragment));
    OutcomeForwardIff(fragment);
  }

  lemma OutcomeForwardIff(fragment: string)
    requires |fragment| < NPOS && WellFormedTriples(fragment)
    ensures Ends(fragment) && Outcome(fragment) == DecodeForward(fragment)
      <==> !StartsWithPercent(fragment) || Settled(DecodeForward(fragment))
  {
    hide Sweep, Settled, DecodeForward, WellFormedTriples;
    var d := DecodeForward(fragment);
    SweepIsForward(fragment);
    if StartsWithPercent(fragment) {
      PassShrinks(fragment);
      SettledIff(d);
    }
  }

  /** A text that is not empty survives starting over exactly if it is settled. */
  lemma SettledIff(p: string)
    requires |p| < NPOS && p != ""
    ensures Settled(p) <==> !Hangs(p) && Ends(p) && Outcome(p) == p
  {
    hide Sweep;
    if StartsWithPercent(p) {
      PassShrinks(p);
      var q := Sweep(p, |p|);
      if |q| == |p| == 1 {
        SweepSkips(q, |q|, 0);
        SweepNone(q);
      }
      assert !Settled(p);
    } else {
      SweepSettled(p, |p|);
      SweepShrinks(p, |p|);
    }
  }

  lemma {:induction false} SweepSettled(p: string, n: nat)
    requires n <= |p| < NPOS
    ensures Settled(p) ==> Sweep(p, n) == p
    decreases n
  {
    if n > 0 {
      SweepSettled(p, n - 1);
    }
  }

  /** A pass over a '%' that it does not leave alone shortens the text. */
  lemma {:induction false} SweepShrinks(p: string, n: nat)
    requires n <= |p| < NPOS
    ensures (exists i :: 0 <= i < n && p[i] == '%' && i + 2 < |p|) ==> |Sweep(p, n)| < |p|
    decreases n
  {
    if n > 0 {
      SweepShrinks(p, n - 1);
    }
  }

  /** "%25a" is decoded to "%a" and then never left; "%2541" is decoded twice, to "A". */
  lemma StartingOver(n: nat)
    ensures DecodeForward("%25a") == "%a" && Rounds(Beginning("%25a"), n).Some?
    ensures DecodeForward("%2541") == "%41" && Leaves("%2541", "A")
  {
    DecodeTriple('2', '5', "a");
    DecodeTriple('2', '5', "41");
    DecodeTriple('4', '1', "");
    assert "%25a" == ['%', '2', '5'] + "a" && "%2541" == ['%', '2', '5'] + "41" && "%41" == ['%', '4', '1'] + "";
    assert "%a" == ['%'] + "a" && "%41" == ['%'] + "41" && "A" == ['A'] + "";
    assert 37 as char == '%' && 65 as char == 'A';
    Hanging(n);
    DecodedTwice();
  }

  lemma DecodeTriple(a: char, b: char, rest: string)
    requires HexDigit(a).Some? && HexDigit(b).Some? && forall i :: 0 <= i < |rest| ==> rest[i] != '%'
    ensures var byte := (16 * HexDigit(a).value + HexDigit(b).value) as char;
      DecodeForward(['%', a, b] + rest) == [byte] + rest
  {
    hide HexByte, HexDigit, DecodeForward;
    var s := ['%', a, b] + rest;
    TripleByte(a, b);
    TripleUnfold(s);
    assert s[1..3] == [a, b] && s[3..] == rest;
    PlainForward(rest);
  }

  lemma PlainForward(s: string)
    requires forall i :: 0 <= i < |s| ==> s[i] != '%'
    ensures DecodeForward(s) == s
  {
    hide DecodeForward;
    ForwardOverPlain(s, 0, |s|);
    assert s[0..] == s && s[0..|s|] == s && s[|s|..] == [];
    NothingToDecode();
  }

  lemma TripleUnfold(s: string)
    requires |s| >= 3 && s[0] == '%'
    ensures DecodeForward(s) == [HexByte(s[1..3])] + DecodeForward(s[3..])
  {
    hide HexByte;
  }

  lemma Hanging(n: nat)
    requires DecodeForward("%25a") == "%a"
    ensures Rounds(Beginning("%25a"), n).Some?
  {
    var f := "%25a";
    SweepIsForward(f);
    assert AfterPasses("%a", 0) == Some("%a");
    assert AfterPasses(f, 1) == Some("%a") && Hangs("%a");
    RunsForEverIff(f);
  }

  lemma DecodedTwice()
    requires DecodeForward("%2541") == "%41" && DecodeForward("%41") == "A"
    ensures Leaves("%2541", "A")
  {
    SweepIsForward("%2541");
    SweepIsForward("%41");
    SweepSkips("A", 1, 0);
    SweepNone("A");
    LeavesIff("%2541", "A");
  }

  // ---------------------------------------------------------------- locations

  /** The members of a URI; at most one of the two fragment forms is non-empty. */
  datatype Uri = Uri(urn: string, scheme: string, authority: string, path: string, pointer: string, identifier: string)

  const EmptyUri := Uri("", "", "", "", "", "")

  /** `location()` */
  function Location(u: Uri): string {
    if u.urn != "" then u.urn
    else (if u.scheme != "" then u.scheme + "://" else "") + u.authority + u.path
  }

  /** `fragment()` */
  function Fragment(u: Uri): string {
    if u.identifier == "" then u.pointer else u.identifier
  }

  datatype UriError = PathOnUrn | WrongEscape

  /** A fragment with a leading slash is a JSON pointer, any other a plain name. */
  predicate IsPointer(fragment: string) {
    fragment != "" && fragment[0] == '/'
  }

  /** Section 3 of RFC 6901: every "~" is followed by "0" or "1". */
  predicate WellEscaped(pointer: string) {
    forall i :: 0 <= i < |pointer| && pointer[i] == '~' ==>
      i + 1 < |pointer| && (pointer[i + 1] == '0' || pointer[i + 1] == '1')
  }

  /** Section 4 of RFC 6901: a token is read from left to right, "~0" being "~" and "~1" being "/". */
  function Unescaped(token: string): string {
    if |token| < 2 then token
    else if token[0] == '~' then [if token[1] == '0' then '~' else '/'] + Unescaped(token[2..])
    else [token[0]] + Unescaped(token[1..])
  }

  /** The text that stands for a token. */
  function Escaped(token: string): string {
    if token == "" then ""
    else (if token[0] == '~' then "~0" else if token[0] == '/' then "~1" else [token[0]]) + Escaped(token[1..])
  }

  /** A text without slashes is well escaped exactly if it is the text of some token. */
  lemma WellEscapedMeans(text: string)
    requires '/' !in text
    ensures WellEscaped(text) <==> exists token :: Escaped(token) == text
  {
    if WellEscaped(text) {
      ReadsBack(text);
      assert Escaped(Unescaped(text)) == text;
    }
    if token :| Escaped(token) == text {
      EscapedIsWell(token);
    }
  }

  lemma {:induction false} ReadsBack(text: string)
    requires '/' !in text && WellEscaped(text)
    ensures Escaped(Unescaped(text)) == text
    decreases |text|
  {
    if text != "" {
      if text[0] == '~' {
        var rest := text[2..];
        assert WellEscaped(rest) by { WellEscapedRest(text, 2); }
        ReadsBack(rest);
        assert text == text[..2] + rest;
        assert text[..2] == (if text[1] == '0' then "~0" else "~1");
        assert Unescaped(text)[1..] == Unescaped(rest);
      } else {
        var rest := text[1..];
        assert WellEscaped(rest) by { WellEscapedRest(text, 1); }
        ReadsBack(rest);
        assert text == [text[0]] + rest;
        assert Unescaped(text) == [text[0]] + Unescaped(rest);
        assert Unescaped(text)[1..] == Unescaped(rest);
      }
    }
  }

  lemma WellEscapedRest(text: string, n: nat)
    requires n <= |text| && WellEscaped(text)
    ensures WellEscaped(text[n..])
  {
    var rest := text[n..];
    forall i | 0 <= i < |rest| && rest[i] == '~'
      ensures i + 1 < |rest| && (rest[i + 1] == '0' || rest[i + 1] == '1')
    {
      assert text[n + i] == '~';
    }
  }

  lemma {:induction false} EscapedIsWell(token: string)
    ensures WellEscaped(Escaped(token))
  {
    if token != "" {
      EscapedIsWell(token[1..]);
    }
  }

  class JsonUri {
    var urn: string
    var scheme: string
    var authority: string
    var path: string
    var pointer: string
    var identifier: string

    ghost function View(): Uri
      reads this
    {
      Uri(urn, scheme, authority, path, pointer, identifier)
    }

    constructor ()
      ensures View() == EmptyUri
    {
      urn, scheme, authority, path, pointer, identifier := "", "", "", "", "", "";
    }

    /**
     Resolves `uri` against the current value.  A path on top of a URN throws and changes nothing; a
     JSON pointer with a wrong escape throws after the location has changed and the fragment is empty.
     The decoding of the fragment has to end: `RunsForEverIff` says when it does not.
     */
    method Update(uri: string) returns (failure: Option<UriError>)
      requires |uri| < NPOS && Ends(FragmentPart(uri))
      modifies this
      ensures var fragment := Outcome(FragmentPart(uri));
        match Relocated(old(View()), LocationPart(uri))
        case None => failure == Some(PathOnUrn) && View() == old(View())
        case Some(u) =>
          if IsPointer(fragment) && !WellEscaped(fragment) then
            failure == Some(WrongEscape) && View() == u.(pointer := "", identifier := "")
          else
            && failure == None
            && View() == if IsPointer(fragment) then u.(pointer := fragment, identifier := "")
                         else u.(pointer := "", identifier := fragment)
      ensures failure == None ==> Fragment(View()) == Outcome(FragmentPart(uri))
      ensures failure == None && WellFormedTriples(FragmentPart(uri)) ==>
        (Fragment(View()) == DecodeForward(FragmentPart(uri))
         <==> !StartsWithPercent(FragmentPart(uri)) || Settled(DecodeForward(FragmentPart(uri))))
    {
      hide Ends, Outcome, Relocated, DecodeForward, WellFormedTriples, Settled, StartsWithPercent, WellEscaped;
      if WellFormedTriples(FragmentPart(uri)) {
        OutcomeForwardIff(FragmentPart(uri));
      }
      var separator := Find(uri, "#", 0);
      var fragment := "";
      if separator.Some? {
        fragment := DecodeInPlace(uri[separator.value + 1..]);
      } else {
        NothingToDecode();
      }
      var thrown := Relocate(if separator.Some? then uri[..separator.value] else uri);
      if thrown {
        return Some(PathOnUrn);
      }
      pointer, identifier := "", "";
      if fragment != "" && fragment[0] == '/' {
        if !WellEscaped(fragment) {
          return Some(WrongEscape);
        }
        pointer := fragment;
      } else {
        identifier := fragment;
      }
      failure := None;
    }

    method Relocate(location: string) returns (thrown: bool)
      modifies `urn, `scheme, `authority, `path
      ensures match Relocated(old(View()), location)
        case None => thrown && View() == old(View())
        case Some(u) => !thrown && View() == u
    {
      thrown := false;
      if location == "" {
        return;
      }
      if StartsWith(location, "urn:") {
        urn := location;
        scheme, authority, path := "", "", "";
        return;
      }
      var pos := 0;
      var proto := Find(location, "://", pos);
      if proto.Some? {
        urn := "";
        scheme := location[pos..proto.value];
        pos := 3 + proto.value;
        var slash := Find(location, "/", pos);
        if slash.Some? {
          authority := location[pos..slash.value];
          pos := slash.value;
        }
      }
      var newPath := location[pos..];
      if urn != "" && newPath != "" {
        return true;
      }
      if newPath != "" && newPath[0] == '/' {
        NoSlashBefore(location, pos);
        path := newPath;
      } else if pos == 0 {
        var last := FindLast(path, '/', |path|);
        path := (if last.Some? then path[..last.value] else path) + "/" + newPath;
      } else {
        SlashAt(location, pos);
        path := path + newPath;
      }
    }
  }

  lemma SlashAt(s: string, pos: nat)
    requires pos <= |s|
    ensures Find(s, "/", pos) == Some(pos) ==> s[pos..] != "" && s[pos] == '/'
  {
    if Find(s, "/", pos) == Some(pos) {
      assert s[pos..pos + 1][0] == '/';
    }
  }

  lemma NoSlashBefore(s: string, pos: nat)
    requires pos < |s| && s[pos] == '/'
    ensures Find(s, "/", pos) == Some(pos)
  {
    assert s[pos..pos + 1] == "/";
  }

  lemma NothingToDecode()
    ensures Ends("") && Outcome("") == "" && DecodeForward("") == ""
  {
  }

  function FragmentPart(uri: string): string {
    match Find(uri, "#", 0)
    case None => ""
    case Some(i) => uri[i + 1..]
  }

  function LocationPart(uri: string): string {
    match Find(uri, "#", 0)
    case None => uri
    case Some(i) => uri[..i]
  }

  /** The new location members; the fragment members are set separately.  `None` is the exception. */
  function Relocated(u: Uri, location: string): Option<Uri> {
    if location == "" then Some(u)
    else if StartsWith(location, "urn:") then Some(u.(urn := location, scheme := "", authority := "", path := ""))
    else match Find(location, "://", 0)
      case None => if u.urn != "" then None else Some(u.(path := ResolvedPath(u.path, location)))
      case Some(proto) => Some(ParsedUrl(u, location, proto))
  }

  function ParsedUrl(u: Uri, location: string, proto: nat): Uri
    requires OccursAt(location, "://", proto)
  {
    var u' := u.(urn := "", scheme := location[..proto]);
    match Find(location, "/", proto + 3)
    case None => u'.(path := u.path + location[proto + 3..])
    case Some(slash) => u'.(authority := location[proto + 3..slash], path := location[slash..])
  }

  /** A rooted path replaces the old one, another replaces its last element. */
  function ResolvedPath(base: string, path: string): string
    requires path != ""
  {
    if path[0] == '/' then path
    else (match FindLast(base, '/', |base|) case None => base case Some(i) => base[..i]) + "/" + path
  }

  /** Locations that a fresh URI prints again as they are. */
  predicate Printable(l: string) {
    || l == ""
    || StartsWith(l, "urn:")
    || l[0] == '/'
    || (Find(l, "://", 0).Some? && Find(l, "://", 0).value > 0)
  }

  /** Authority and path together are what follows the "://". */
  lemma AuthorityAndPath(l: string, proto: nat)
    requires OccursAt(l, "://", proto) && proto + 3 <= |l|
    ensures var u := ParsedUrl(EmptyUri, l, proto);
      u.urn == "" && u.scheme == l[..proto] && u.authority + u.path == l[proto + 3..]
  {
    hide OccursAt;
    match Find(l, "/", proto + 3)
    case None => assert "" + ("" + l[proto + 3..]) == l[proto + 3..];
    case Some(slash) => assert l[proto + 3..] == l[proto + 3..slash] + l[slash..];
  }

  /** A location with "://" is printed as it is, without the three characters if the scheme is empty. */
  lemma ReparseUrl(l: string, proto: nat)
    requires OccursAt(l, "://", proto) && proto + 3 <= |l| && l[proto..proto + 3] == "://"
    ensures Location(ParsedUrl(EmptyUri, l, proto)) == if proto == 0 then l[3..] else l
  {
    hide OccursAt, ParsedUrl, Location;
    AuthorityAndPath(l, proto);
    var u := ParsedUrl(EmptyUri, l, proto);
    UrlPrinted(u, l[..proto], l[proto + 3..]);
    assert l == l[..proto] + l[proto..proto + 3] + l[proto + 3..];
  }

  lemma UrlPrinted(u: Uri, scheme: string, rest: string)
    requires u.urn == "" && u.scheme == scheme && u.authority + u.path == rest
    ensures Location(u) == if scheme == "" then rest else scheme + "://" + rest
  {
    if scheme == "" {
      assert "" + u.authority + u.path == u.authority + u.path;
    } else {
      assert scheme + "://" + u.authority + u.path == scheme + "://" + (u.authority + u.path);
    }
  }

  /** Parsing a location from scratch and printing it gives it back exactly if it is printable. */
  lemma ReparseIffPrintable(l: string)
    ensures Relocated(EmptyUri, l).Some?
    ensures Location(Relocated(EmptyUri, l).value) == l <==> Printable(l)
  {
    if l != "" && !StartsWith(l, "urn:") {
      match Find(l, "://", 0)
      case None =>
        if l[0] != '/' {
          assert |Location(Relocated(EmptyUri, l).value)| == |l| + 1;
        }
      case Some(proto) =>
        hide ParsedUrl, Location;
        ReparseUrl(l, proto);
        if proto == 0 {
          assert l[0..3][0] == ':';
        }
    }
  }

  /** What every URI satisfies that was built from locations none of which has an empty scheme. */
  ghost predicate Regular(u: Uri) {
    if u.urn != "" then StartsWith(u.urn, "urn:")
    else if u.scheme != "" then
      Find(u.scheme + "://", "://", 0) == Some(|u.scheme|) && !StartsWith(u.scheme + "://", "urn:")
    else u.authority == "" && (u.path == "" || u.path[0] == '/')
  }

  lemma FirstOccurrence(a: string, b: string, t: string)
    requires t != "" && Find(a + t, t, 0) == Some(|a|)
    ensures Find(a + t + b, t, 0) == Some(|a|)
  {
    var s := a + t + b;
    assert s[..|a| + |t|] == a + t;
    assert OccursAt(s, t, |a|);
    var i := Find(s, t, 0).value;
    assert s[i..i + |t|] == (a + t)[i..i + |t|];
    assert OccursAt(a + t, t, i);
  }

  /** An update of a regular URI by a location with a non-empty scheme, or none, gives a regular URI. */
  lemma UpdatesStayRegular(u: Uri, location: string)
    requires Regular(u) && Relocated(u, location).Some?
    requires !StartsWith(location, "://")
    ensures Regular(Relocated(u, location).value)
  {
    if location != "" && !StartsWith(location, "urn:") {
      match Find(location, "://", 0)
      case None =>
        if u.scheme == "" && location[0] != '/' && u.path != "" {
          assert FindLast(u.path, '/', |u.path|).Some?;
        }
      case Some(proto) =>
        ParsedSchemeRegular(location, proto);
    }
  }

  /** The part before the first "://" contains no earlier "://" and no URN prefix. */
  lemma ParsedSchemeRegular(location: string, proto: nat)
    requires Find(location, "://", 0) == Some(proto)
    requires !StartsWith(location, "://") && !StartsWith(location, "urn:")
    ensures location[..proto] != ""
    ensures Find(location[..proto] + "://", "://", 0) == Some(proto)
    ensures !StartsWith(location[..proto] + "://", "urn:")
  {
    var start := location[..proto + 3];
    assert start == location[..proto] + location[proto..proto + 3];
    PrefixStarts(location, proto + 3, "://");
    PrefixStarts(location, proto + 3, "urn:");
    assert start[proto..proto + 3] == "://";
    assert OccursAt(start, "://", proto);
    var first := Find(start, "://", 0).value;
    assert start[first..first + 3] == location[first..first + 3];
    assert OccursAt(location, "://", first);
    assert proto == 0 ==> start == "://";
  }

  lemma PrefixStarts(s: string, n: nat, t: string)
    requires n <= |s|
    ensures StartsWith(s[..n], t) ==> StartsWith(s, t)
  {
  }

  lemma RegularIsPrintable(u: Uri)
    requires Regular(u)
    ensures Printable(Location(u))
  {
    if u.urn == "" && u.scheme != "" {
      FirstOccurrence(u.scheme, u.authority + u.path, "://");
      assert Location(u) == u.scheme + "://" + (u.authority + u.path);
    }
  }

  /** Any chain of `derive` calls, starting from a fresh URI; fragments do not matter. */
  ghost function Derived(u: Uri, locations: seq<string>): Option<Uri>
    decreases |locations|
  {
    if locations == [] then Some(u)
    else match Relocated(u, locations[0])
      case None => None
      case Some(u') => Derived(u', locations[1..])
  }

  lemma {:induction false} DerivedRegular(u: Uri, locations: seq<string>)
    requires Regular(u) && Derived(u, locations).Some?
    requires forall i :: 0 <= i < |locations| ==> !StartsWith(locations[i], "://")
    ensures Regular(Derived(u, locations).value)
    decreases |locations|
  {
    if locations != [] {
      UpdatesStayRegular(u, locations[0]);
      DerivedRegular(Relocated(u, locations[0]).value, locations[1..]);
    }
  }

  /**
   The location of a derived URI survives printing and parsing, unless one of the
   URIs it was derived from has an empty scheme in front of "://".
   */
  lemma LocationRoundTrip(locations: seq<string>)
    requires Derived(EmptyUri, locations).Some?
    requires forall i :: 0 <= i < |locations| ==> !StartsWith(locations[i], "://")
    ensures var l := Location(Derived(EmptyUri, locations).value);
      && Relocated(EmptyUri, l).Some?
      && Location(Relocated(EmptyUri, l).value) == l
  {
    DerivedRegular(EmptyUri, locations);
    RegularIsPrintable(Derived(EmptyUri, locations).value);
    ReparseIffPrintable(Location(Derived(EmptyUri, locations).value));
  }

  /** With an empty scheme the location changes: "://h/p" is printed as "h/p", which is read as "/h/p". */
  lemma EmptySchemeChanges()
    ensures var u := Relocated(EmptyUri, "://h/p").value;
      && Location(u) == "h/p"
      && Location(Relocated(EmptyUri, Location(u)).value) != Location(u)
  {
    hide ParsedUrl, Location;
    var l := "://h/p";
    assert OccursAt(l, "://", 0);
    assert l[3..] == "h/p";
    ReparseUrl(l, 0);
    NoProtocol();
    ReparseIffPrintable("h/p");
  }

  lemma NoProtocol()
    ensures !Printable("h/p") && Find("h/p", "://", 0).None?
  {
    assert "h/p"[0..3][0] == 'h' && "://"[0] == ':';
  }

  /** What a fresh URI reads as a path without a leading slash it puts below the root. */
  lemma RelativePath(l: string)
    requires l != "" && l[0] != '/' && !StartsWith(l, "urn:") && Find(l, "://", 0).None?
    ensures Relocated(EmptyUri, l).Some? && Location(Relocated(EmptyUri, l).value) == "/" + l
  {
    hide Find, StartsWith, ResolvedPath;
    BelowRoot(l);
    assert "" + "" + ("/" + l) == "/" + l;
  }

  lemma BelowRoot(l: string)
    requires l != "" && l[0] != '/'
    ensures ResolvedPath("", l) == "/" + l
  {
    assert FindLast("", '/', 0) == None;
    assert "" + "/" + l == "/" + l;
  }

  // ------------------------------------------------------------ relative locations

  /** A location that is only a path. */
  predicate OnlyPath(l: string) {
    l != "" && !StartsWith(l, "urn:") && Find(l, "://", 0).None?
  }

  /** A relative path takes the place of the last element of the path it is read from; all else stays. */
  lemma RelativeToElement(u: Uri, dir: string, name: string, rel: string)
    requires u.urn == "" && u.path == dir + "/" + name && '/' !in name
    requires OnlyPath(rel) && rel[0] != '/'
    ensures Relocated(u, rel) == Some(u.(path := dir + "/" + rel))
  {
    hide Find, StartsWith;
    LastSlash(dir, name);
    assert u.path[..|dir|] == dir;
  }

  lemma {:induction false} LastSlash(dir: string, name: string)
    requires '/' !in name
    ensures var path := dir + "/" + name; FindLast(path, '/', |path|) == Some(|dir|)
  {
    var path := dir + "/" + name;
    assert path[|dir|] == '/';
    forall i | |dir| < i < |path|
      ensures path[i] != '/'
    {
      assert path[i] == name[i - |dir| - 1];
    }
  }

  /** A path without a slash becomes the directory. */
  lemma RelativeToDirectory(u: Uri, rel: string)
    requires u.urn == "" && '/' !in u.path && OnlyPath(rel) && rel[0] != '/'
    ensures Relocated(u, rel) == Some(u.(path := u.path + "/" + rel))
  {
    hide Find, StartsWith;
    assert FindLast(u.path, '/', |u.path|) == None;
  }

  /** A rooted path takes the place of the whole path. */
  lemma RootedPath(u: Uri, path: string)
    requires u.urn == "" && OnlyPath(path) && path[0] == '/'
    ensures Relocated(u, path) == Some(u.(path := path))
  {
    hide Find, StartsWith;
  }

  /** A path on top of a URN is the exception. */
  lemma PathOnUrnThrows(u: Uri, path: string)
    requires OnlyPath(path)
    ensures Relocated(u, path) == None <==> u.urn != ""
  {
    hide Find, StartsWith;
  }

  /** A URN takes the place of everything. */
  lemma UrnTaken(u: Uri, urn: string)
    requires StartsWith(urn, "urn:")
    ensures Relocated(u, urn) == Some(Uri(urn, "", "", "", u.pointer, u.identifier))
  {
  }

  /** A URL with the given parts, whose scheme ends with the first "://". */
  predicate IsUrl(l: string, scheme: string, authority: string, path: string) {
    && Find(scheme + "://", "://", 0) == Some(|scheme|) && !StartsWith(scheme + "://", "urn:")
    && '/' !in authority && path != "" && path[0] == '/'
    && l == scheme + "://" + authority + path
  }

  /** With an authority and a path both are replaced, whatever was there before. */
  lemma UrlTaken(u: Uri, l: string, scheme: string, authority: string, path: string)
    requires IsUrl(l, scheme, authority, path)
    ensures Relocated(u, l) == Some(Uri("", scheme, authority, path, u.pointer, u.identifier))
  {
    hide Find, StartsWith, OccursAt, Relocated, IsUrl;
    UrlSlices(l, scheme, authority, path);
    UrlStarts(l, scheme, authority, path);
    FirstSlash(l, |scheme| + 3, |authority|);
    SlicesTaken(u, l, |scheme|, |scheme| + 3 + |authority|);
  }

  lemma UrlStarts(l: string, scheme: string, authority: string, path: string)
    requires IsUrl(l, scheme, authority, path)
    ensures Find(l, "://", 0) == Some(|scheme|) && !StartsWith(l, "urn:")
  {
    hide Find, StartsWith, OccursAt;
    assert l == scheme + "://" + (authority + path);
    UrlBegins(scheme, authority + path);
  }

  lemma UrlSlices(l: string, scheme: string, authority: string, path: string)
    requires IsUrl(l, scheme, authority, path)
    ensures var from := |scheme| + 3;
      && |l| == from + |authority| + |path| && path != ""
      && l[..|scheme|] == scheme && l[from..from + |authority|] == authority && l[from + |authority|..] == path
      && l[from + |authority|] == '/' && forall i :: from <= i < from + |authority| ==> l[i] != '/'
  {
    hide Find, StartsWith;
    var from := |scheme| + 3;
    assert l[from + |authority|..] == path;
    assert l[from..from + |authority|] == authority;
    forall i | from <= i < from + |authority|
      ensures l[i] != '/'
    {
      assert l[i] == authority[i - from];
    }
  }

  lemma SlicesTaken(u: Uri, l: string, proto: nat, slash: nat)
    requires l != "" && !StartsWith(l, "urn:") && Find(l, "://", 0) == Some(proto)
    requires proto + 3 <= slash <= |l| && Find(l, "/", proto + 3) == Some(slash)
    ensures Relocated(u, l) == Some(Uri("", l[..proto], l[proto + 3..slash], l[slash..], u.pointer, u.identifier))
  {
    hide Find, StartsWith, OccursAt;
  }

  /** Without a path the rest is appended to the old path, and the old authority stays. */
  lemma UrlWithoutPath(u: Uri, scheme: string, rest: string)
    requires Find(scheme + "://", "://", 0) == Some(|scheme|) && !StartsWith(scheme + "://", "urn:")
    requires '/' !in rest
    ensures Relocated(u, scheme + "://" + rest)
      == Some(Uri("", scheme, u.authority, u.path + rest, u.pointer, u.identifier))
  {
    hide Find, StartsWith;
    var l := scheme + "://" + rest;
    UrlBegins(scheme, rest);
    NoSlashAfter(l, |scheme| + 3);
    assert l[..|scheme|] == scheme && l[|scheme| + 3..] == rest;
  }

  lemma UrlBegins(scheme: string, rest: string)
    requires Find(scheme + "://", "://", 0) == Some(|scheme|) && !StartsWith(scheme + "://", "urn:")
    ensures var l := scheme + "://" + rest;
      Find(l, "://", 0) == Some(|scheme|) && !StartsWith(l, "urn:") && OccursAt(l, "://", |scheme|) && l != ""
  {
    hide Find, StartsWith, OccursAt;
    FirstOccurrence(scheme, rest, "://");
    if |scheme| == 0 {
      StartsDifferently(scheme + "://" + rest);
    } else {
      StartsWithin(scheme + "://", rest, "urn:");
    }
  }

  lemma StartsDifferently(l: string)
    requires l != "" && l[0] == ':'
    ensures !StartsWith(l, "urn:")
  {
  }

  lemma StartsWithin(a: string, b: string, t: string)
    requires |t| <= |a|
    ensures StartsWith(a + b, t) <==> StartsWith(a, t)
  {
    assert (a + b)[..|t|] == a[..|t|];
  }

  lemma OneCharacter(l: string, c: char, i: nat)
    requires i < |l|
    ensures OccursAt(l, [c], i) <==> l[i] == c
  {
    assert l[i..i + 1] == [l[i]];
  }

  lemma FirstSlash(l: string, from: nat, n: nat)
    requires from + n < |l| && l[from + n] == '/' && forall i :: from <= i < from + n ==> l[i] != '/'
    ensures Find(l, "/", from) == Some(from + n) && OccursAt(l, "/", from + n)
  {
    hide Find, OccursAt;
    OneCharacter(l, '/', from + n);
    OneCharacter(l, '/', Find(l, "/", from).value);
  }

  lemma NoSlashAfter(l: string, from: nat)
    requires from <= |l| && forall i :: from <= i < |l| ==> l[i] != '/'
    ensures Find(l, "/", from) == None
  {
    hide Find, OccursAt;
    if Find(l, "/", from).Some? {
      OneCharacter(l, '/', Find(l, "/", from).value);
    }
  }

  /** The first "#" separates location and fragment. */
  lemma PartsOf(location: string, fragment: string)
    requires '#' !in location
    ensures LocationPart(location + "#" + fragment) == location && FragmentPart(location + "#" + fragment) == fragment
    ensures LocationPart(location) == location && FragmentPart(location) == ""
  {
    hide Find, OccursAt;
    var uri := location + "#" + fragment;
    OneCharacter(uri, '#', |location|);
    OneCharacter(uri, '#', Find(uri, "#", 0).value);
    assert forall i :: 0 <= i < |location| ==> uri[i] == location[i];
    if Find(location, "#", 0).Some? {
      OneCharacter(location, '#', Find(location, "#", 0).value);
    }
    assert uri[..|location|] == location && uri[|location| + 1..] == fragment;
  }

  /** For example, "h/p" is read as "/h/p". */
  lemma ReadsPath()
    ensures Relocated(EmptyUri, "h/p").Some? && Location(Relocated(EmptyUri, "h/p").value) == "/h/p"
    ensures Relocated(EmptyUri, "/h/p").Some? && Location(Relocated(EmptyUri, "/h/p").value) == "/h/p"
  {
    hide Relocated, Location, Printable;
    NoProtocol();
    SlashPrintable();
    ReparseIffPrintable("/h/p");
    assert "h/p"[0] == 'h' && "urn:"[0] == 'u';
    RelativePath("h/p");
    assert "/" + "h/p" == "/h/p";
  }

  lemma SlashPrintable()
    ensures Printable("/h/p")
  {
  }
}
