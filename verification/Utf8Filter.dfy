// The byte filter applied to every value a job leaves behind
// (ja_set_value_after in src/jalibs/javalue.c). Well-formedness is that of
// section 4 of RFC 3629.
module Utf8Filter {

  type Byte = bv8

  predicate Tail(b: Byte) { 0x80 <= b <= 0xBF }

  // The text is a C string: no zero byte.
  predicate One(c: seq<Byte>) { |c| == 1 && 0 < c[0] <= 0x7F }

  predicate Two(c: seq<Byte>) { |c| == 2 && 0xC2 <= c[0] <= 0xDF && Tail(c[1]) }

  predicate Three(c: seq<Byte>)
  {
    && |c| == 3 && Tail(c[2])
    && (|| (c[0] == 0xE0 && 0xA0 <= c[1] <= 0xBF)
        || ((0xE1 <= c[0] <= 0xEC || 0xEE <= c[0] <= 0xEF) && Tail(c[1]))
        || (c[0] == 0xED && 0x80 <= c[1] <= 0x9F))
  }

  predicate Four(c: seq<Byte>)
  {
    && |c| == 4 && Tail(c[2]) && Tail(c[3])
    && (|| (c[0] == 0xF0 && 0x90 <= c[1] <= 0xBF)
        || (0xF1 <= c[0] <= 0xF3 && Tail(c[1]))
        || (c[0] == 0xF4 && 0x80 <= c[1] <= 0x8F))
  }

  predicate Character(c: seq<Byte>) { One(c) || Two(c) || Three(c) || Four(c) }

  function Flatten(cs: seq<seq<Byte>>): seq<Byte>
  {
    if cs == [] then [] else Flatten(cs[..|cs|-1]) + cs[|cs|-1]
  }

  ghost predicate WellFormed(s: seq<Byte>)
  {
    exists cs :: Flatten(cs) == s && forall i :: 0 <= i < |cs| ==> Character(cs[i])
  }

  // The characters the filter lets through.
  function Kept(cs: seq<seq<Byte>>): seq<seq<Byte>>
  {
    if cs == [] then []
    else
      var c := cs[|cs|-1];
      Kept(cs[..|cs|-1]) + (if |c| == 1 || |c| == 3 then [c] else [])
  }

  // The loop's variables: dst[..j], the saved bytes n1 and n2, the count k.
  datatype State = State(out: seq<Byte>, n1: Byte, n2: Byte, k: nat)

  function Pending(b: Byte): seq<Byte> { if b != 0 then [b] else [] }

  datatype Kind = Ascii | ThreeByteLead | Continuation | Other

  // The loop's bit tests.
  function KindOf(b: Byte): Kind
  {
    if b & 0x80 == 0 then Ascii
    else if b & 0xf0 == 0xe0 then ThreeByteLead
    else if b & 0xc0 == 0x80 then Continuation
    else Other
  }

  lemma Kinds(b: Byte)
    ensures KindOf(b) == if b <= 0x7F then Ascii else if b <= 0xBF then Continuation
                         else if 0xE0 <= b <= 0xEF then ThreeByteLead else Other
  {
  }

  function Step(st: State, b: Byte): State
  {
    var kind := KindOf(b);
    if kind.Ascii? then st.(out := st.out + [b], k := 0)
    else if kind.ThreeByteLead? then st.(n1 := b, k := 1)
    else if kind.Continuation? && 0 < st.k < 7 then
      if st.n1 != 0 && st.n2 == 0 then st.(n2 := b, k := st.k + 1)
      else State(st.out + Pending(st.n1) + Pending(st.n2) + [b], 0, 0, st.k + 1)
    else st.(k := 0)
  }

  function Run(s: seq<Byte>): State
  {
    if s == [] then State([], 0, 0, 0) else Step(Run(s[..|s|-1]), s[|s|-1])
  }

  function Filtered(s: seq<Byte>): seq<Byte> { Run(s).out }

  lemma RunOne(s: seq<Byte>, b: Byte)
    ensures Run(s + [b]) == Step(Run(s), b)
  {
    assert (s + [b])[..|s|] == s;
  }

  // A character whose first byte is Other, and the continuations after it, is dropped.
  lemma Dropped(s: seq<Byte>, c: seq<Byte>)
    requires c != [] && KindOf(c[0]) == Other
    requires forall i :: 1 <= i < |c| ==> KindOf(c[i]) == Continuation
    ensures Run(s + c) == Run(s).(k := 0)
  {
    var front := c[..|c|-1];
    assert s + c == (s + front) + [c[|c|-1]];
    RunOne(s + front, c[|c|-1]);
    if front == [] {
      assert s + front == s;
    } else {
      Dropped(s, front);
    }
  }

  lemma ThreeKept(s: seq<Byte>, a: Byte, b: Byte, c: Byte)
    requires KindOf(a) == ThreeByteLead && KindOf(b) == Continuation && KindOf(c) == Continuation
    requires a != 0 && b != 0 && Run(s).n1 == 0 && Run(s).n2 == 0
    ensures Run(s + [a, b, c]) == State(Run(s).out + [a, b, c], 0, 0, 3)
  {
    RunOne(s, a);
    RunOne(s + [a], b);
    RunOne(s + [a] + [b], c);
    assert s + [a, b, c] == s + [a] + [b] + [c];
    assert Run(s).out + [a] + [b] + [c] == Run(s).out + [a, b, c];
  }

  lemma RunCharacter(s: seq<Byte>, c: seq<Byte>)
    requires Character(c) && Run(s).n1 == 0 && Run(s).n2 == 0
    ensures Run(s + c).n1 == 0 && Run(s + c).n2 == 0
    ensures Run(s + c).out == Run(s).out + if |c| == 1 || |c| == 3 then c else []
  {
    forall i | 0 <= i < |c| ensures KindOf(c[i]) == if i > 0 then Continuation else if |c| == 1 then Ascii else if |c| == 3 then ThreeByteLead else Other {
      Kinds(c[i]);
    }
    if |c| == 1 {
      assert c == [c[0]];
      RunOne(s, c[0]);
    } else if |c| == 3 {
      assert c == [c[0], c[1], c[2]];
      ThreeKept(s, c[0], c[1], c[2]);
    } else {
      Dropped(s, c);
    }
  }

  // On well-formed text the filter keeps exactly the characters of one and
  // three bytes, in order.
  lemma {:induction false} FilterKeeps(cs: seq<seq<Byte>>)
    requires forall i :: 0 <= i < |cs| ==> Character(cs[i])
    ensures Filtered(Flatten(cs)) == Flatten(Kept(cs))
    ensures Run(Flatten(cs)).n1 == 0 && Run(Flatten(cs)).n2 == 0
  {
    if cs != [] {
      var front, c := cs[..|cs|-1], cs[|cs|-1];
      FilterKeeps(front);
      RunCharacter(Flatten(front), c);
      if |c| == 1 || |c| == 3 {
        assert Kept(cs)[..|Kept(cs)|-1] == Kept(front);
      } else {
        assert Kept(cs) == Kept(front);
      }
    }
  }

  lemma {:induction false} KeptAgain(cs: seq<seq<Byte>>)
    requires forall i :: 0 <= i < |cs| ==> Character(cs[i])
    ensures Kept(Kept(cs)) == Kept(cs)
    ensures forall i :: 0 <= i < |Kept(cs)| ==> Character(Kept(cs)[i])
  {
    if cs != [] {
      var front, c := cs[..|cs|-1], cs[|cs|-1];
      KeptAgain(front);
      if |c| == 1 || |c| == 3 {
        assert Kept(cs)[..|Kept(cs)|-1] == Kept(front);
      } else {
        assert Kept(cs) == Kept(front);
      }
    }
  }

  lemma FilterOnWellFormed(s: seq<Byte>)
    requires WellFormed(s)
    ensures WellFormed(Filtered(s)) && Filtered(Filtered(s)) == Filtered(s)
  {
    var cs :| Flatten(cs) == s && forall i :: 0 <= i < |cs| ==> Character(cs[i]);
    FilterKeeps(cs);
    KeptAgain(cs);
    FilterKeeps(Kept(cs));
  }

  // The state after a lead and the continuation bytes cs, read from out on.
  function AfterLead(out: seq<Byte>, a: Byte, cs: seq<Byte>): State
  {
    if |cs| <= 6 then State(out + [a] + cs, 0, 0, |cs| + 1) else State(out + [a] + cs[..6], 0, 0, 0)
  }

  lemma OneMore(out: seq<Byte>, a: Byte, cs: seq<Byte>, c: Byte)
    requires KindOf(c) == Continuation && |cs| >= 2
    ensures Step(AfterLead(out, a, cs), c) == AfterLead(out, a, cs + [c])
  {
    if |cs| < 6 {
      assert out + [a] + cs + [c] == out + [a] + (cs + [c]);
    } else {
      assert (cs + [c])[..6] == cs[..6];
      assert |cs| == 6 ==> cs[..6] == cs;
    }
  }

  lemma LeadAndTwo(s: seq<Byte>, a: Byte, b: Byte, c: Byte)
    requires KindOf(a) == ThreeByteLead && KindOf(b) == Continuation && KindOf(c) == Continuation
    requires Run(s).n1 == 0 && Run(s).n2 == 0
    ensures Run(s + ([a] + [b, c])) == AfterLead(Run(s).out, a, [b, c])
  {
    NotZero(a);
    NotZero(b);
    ThreeKept(s, a, b, c);
    assert [a] + [b, c] == [a, b, c];
    assert Run(s).out + [a] + [b, c] == Run(s).out + [a, b, c];
  }

  lemma NotZero(b: Byte)
    requires KindOf(b) != Ascii
    ensures b != 0
  {
  }

  lemma LongStep(t: seq<Byte>, out: seq<Byte>, a: Byte, cs: seq<Byte>, c: Byte)
    requires |cs| >= 2 && KindOf(c) == Continuation && Run(t) == AfterLead(out, a, cs)
    ensures Run(t + [c]) == AfterLead(out, a, cs + [c])
  {
    RunOne(t, c);
    OneMore(out, a, cs, c);
  }

  lemma Longer(s: seq<Byte>, a: Byte, cs: seq<Byte>)
    requires cs != []
    ensures s + ([a] + cs) == s + ([a] + cs[..|cs|-1]) + [cs[|cs|-1]] && cs[..|cs|-1] + [cs[|cs|-1]] == cs
  {
  }

  // A three-byte lead lets through up to six continuation bytes, if there are two.
  lemma {:induction false} LongSequence(s: seq<Byte>, a: Byte, cs: seq<Byte>)
    requires KindOf(a) == ThreeByteLead && (forall i :: 0 <= i < |cs| ==> KindOf(cs[i]) == Continuation) && |cs| >= 2
    requires Run(s).n1 == 0 && Run(s).n2 == 0
    ensures Run(s + ([a] + cs)) == AfterLead(Run(s).out, a, cs)
  {
    if |cs| == 2 {
      assert cs == [cs[0], cs[1]];
      LeadAndTwo(s, a, cs[0], cs[1]);
    } else {
      LongSequence(s, a, cs[..|cs|-1]);
      LongStep(s + ([a] + cs[..|cs|-1]), Run(s).out, a, cs[..|cs|-1], cs[|cs|-1]);
      Longer(s, a, cs);
    }
  }

  // On any bytes: what is written and what is saved came from the input read.
  lemma {:induction false} NeverOverruns(s: seq<Byte>)
    ensures |Run(s).out| + |Pending(Run(s).n1)| + |Pending(Run(s).n2)| <= |s|
  {
    if s != [] {
      NeverOverruns(s[..|s|-1]);
    }
  }

  method Put(dst: array<Byte>, ghost out: seq<Byte>, b: Byte, j: nat)
    requires j == |out| < dst.Length && dst[..j] == out
    modifies dst
    ensures dst[..j+1] == out + [b]
    ensures forall i :: j < i < dst.Length ==> dst[i] == old(dst[i])
  {
    dst[j] := b;
  }

  // The saved bytes and the one that completes them.
  method Flush(dst: array<Byte>, ghost out: seq<Byte>, n1: Byte, n2: Byte, b: Byte, j0: nat) returns (j: nat)
    requires j0 == |out| <= dst.Length && dst[..j0] == out
    requires j0 + |Pending(n1)| + |Pending(n2)| + 1 <= dst.Length
    modifies dst
    ensures j == j0 + |Pending(n1)| + |Pending(n2)| + 1
    ensures dst[..j] == out + Pending(n1) + Pending(n2) + [b]
    ensures forall i :: j <= i < dst.Length ==> dst[i] == old(dst[i])
  {
    j := j0;
    if n1 != 0 {
      Put(dst, out, n1, j);
      j := j + 1;
    }
    assert dst[..j] == out + Pending(n1);
    if n2 != 0 {
      Put(dst, out + Pending(n1), n2, j);
      j := j + 1;
    }
    assert dst[..j] == out + Pending(n1) + Pending(n2);
    Put(dst, out + Pending(n1) + Pending(n2), b, j);
    j := j + 1;
  }

  // The body of the loop.
  method Consume(dst: array<Byte>, ghost st: State, b: Byte, j0: nat, n10: Byte, n20: Byte, k0: nat)
    returns (j: nat, n1: Byte, n2: Byte, k: nat)
    requires j0 <= dst.Length && st == State(dst[..j0], n10, n20, k0)
    requires |Step(st, b).out| <= dst.Length
    modifies dst
    ensures j0 <= j <= dst.Length && State(dst[..j], n1, n2, k) == Step(st, b)
    ensures forall i :: j <= i < dst.Length ==> dst[i] == old(dst[i])
  {
    j, n1, n2, k := j0, n10, n20, k0;
    var kind := KindOf(b);
    if kind.Ascii? {
      Put(dst, st.out, b, j);
      j := j + 1;
      k := 0;
    } else if kind.ThreeByteLead? {
      n1 := b;
      k := 1;
    } else if kind.Continuation? && 0 < k < 7 {
      if n1 != 0 && n2 == 0 {
        n2 := b;
      } else {
        j := Flush(dst, st.out, n1, n2, b, j);
        n1, n2 := 0, 0;
      }
      k := k + 1;
    } else {
      k := 0;
    }
  }

  // What is written is not taken back.
  lemma {:induction false} WrittenGrows(s: seq<Byte>, i: nat)
    requires i <= |s|
    ensures |Run(s[..i]).out| <= |Run(s).out|
  {
    if i < |s| {
      assert s[..|s|-1][..i] == s[..i];
      WrittenGrows(s[..|s|-1], i);
    } else {
      assert s[..i] == s;
    }
  }

  // The loop; dst is the local buffer, which has to hold the filtered value and
  // its terminator.
  method Filter(src: seq<Byte>, dst: array<Byte>) returns (j: nat)
    requires |Filtered(src)| < dst.Length
    modifies dst
    ensures j < dst.Length && dst[..j] == Filtered(src) && dst[j] == 0
    ensures forall i :: j < i < dst.Length ==> dst[i] == old(dst[i])
  {
    var n1: Byte, n2: Byte, k: nat := 0, 0, 0;
    j := 0;
    for i := 0 to |src|
      invariant j < dst.Length && Run(src[..i]) == State(dst[..j], n1, n2, k)
      invariant forall m :: j <= m < dst.Length ==> dst[m] == old(dst[m])
    {
      RunOne(src[..i], src[i]);
      assert src[..i+1] == src[..i] + [src[i]];
      WrittenGrows(src, i + 1);
      j, n1, n2, k := Consume(dst, Run(src[..i]), src[i], j, n1, n2, k);
    }
    assert src[..|src|] == src;
    dst[j] := 0;
  }
}
