/** Byte run-length coding and its row-delta variant (src/render/rle.cpp).
    The coders work on arrays, as in the source; what they compute is given by
    functions on sequences, about which the theorems at the end are stated. */
module Rle {
  import opened Bytes

  const MAX_RUN: nat := 255

  // ---------------------------------------------------------------- meaning

  function Repeat(v: byte, n: nat): (s: seq<byte>)
    ensures |s| == n && forall i | 0 <= i < n :: s[i] == v
  {
    seq(n, _ => v)
  }

  // The bytes denoted by a list of (count, value) pairs.
  function Expand(p: seq<byte>): seq<byte> {
    if |p| < 2 then [] else Repeat(p[1], p[0]) + Expand(p[2..])
  }

  // Whole pairs, none with count zero: what the decoder can read.
  predicate WellFormed(p: seq<byte>) {
    |p| % 2 == 0 && forall i | 0 <= i < |p| && i % 2 == 0 :: p[i] != 0
  }

  predicate Accepts(p: seq<byte>, cap: nat) {
    WellFormed(p) && |Expand(p)| <= cap
  }

  // The run of equal bytes at i has length r, capped at MAX_RUN.
  predicate IsRun(s: seq<byte>, i: nat, r: nat)
    requires i < |s|
  {
    && 1 <= r <= MAX_RUN && i + r <= |s|
    && (forall k | i <= k < i + r :: s[k] == s[i])
    && (r == MAX_RUN || i + r == |s| || s[i + r] != s[i])
  }

  function Run(s: seq<byte>, i: nat): (r: nat)
    requires i < |s|
    ensures 1 <= r <= MAX_RUN && i + r <= |s|
    decreases |s| - i
  {
    if i + 1 == |s| || s[i + 1] != s[i] then 1
    else if Run(s, i + 1) < MAX_RUN then Run(s, i + 1) + 1
    else MAX_RUN
  }

  // Greedy coding of s[i..]: always take the longest run.
  function EncodeFrom(s: seq<byte>, i: nat): seq<byte>
    requires i <= |s|
    decreases |s| - i
  {
    if i == |s| then [] else [Run(s, i), s[i]] + EncodeFrom(s, i + Run(s, i))
  }

  function Encode(s: seq<byte>): seq<byte> {
    EncodeFrom(s, 0)
  }

  // Row XOR previous row; the first `stride` bytes stay as they are.
  function Delta(s: seq<byte>, stride: nat): (d: seq<byte>)
    requires stride > 0
    ensures |d| == |s|
    ensures forall i | 0 <= i < |s| :: d[i] == if i < stride then s[i] else Xor(s[i], s[i - stride])
  {
    seq(|s|, i requires 0 <= i < |s| => if i < stride then s[i] else Xor(s[i], s[i - stride]))
  }

  // Running XOR down each column: the meaning of a delta stream.
  function Integrate(d: seq<byte>, stride: nat): (s: seq<byte>)
    requires stride > 0
    ensures |s| == |d|
  {
    if d == [] then []
    else
      var n := |d| - 1;
      var p := Integrate(d[..n], stride);
      p + [if n < stride then d[n] else Xor(d[n], p[n - stride])]
  }

  // ---------------------------------------------------------------- coders

  // The inner loop shared by rleEncode and rleEncodeDelta.
  method ScanRun(s: seq<byte>, ip: nat) returns (run: nat)
    requires ip < |s|
    ensures run == Run(s, ip)
  {
    run := 1;
    while ip + run < |s| && s[ip + run] == s[ip] && run < MAX_RUN
      invariant 1 <= run <= MAX_RUN && ip + run <= |s|
      invariant forall k | ip <= k < ip + run :: s[k] == s[ip]
    {
      run := run + 1;
    }
    RunIsMaximal(s, ip, run);
  }

  // After `op` bytes of output the input from ip on is still to be coded.
  ghost predicate Pending(s: seq<byte>, ip: nat, out: seq<byte>, op: nat) {
    && ip <= |s| && op <= |out|
    && op + |EncodeFrom(s, ip)| == |Encode(s)|
    && out[..op] == Encode(s)[..op]
    && Encode(s)[op..] == EncodeFrom(s, ip)
  }

  method EmitRun(s: seq<byte>, out: array<byte>, ip: nat, op: nat) returns (run: nat, ok: bool)
    requires ip < |s| && Pending(s, ip, out[..], op)
    modifies out
    ensures ok <==> op + 2 <= out.Length
    ensures run == Run(s, ip)
    ensures ok ==> Pending(s, ip + run, out[..], op + 2)
    ensures !ok ==> |Encode(s)| > out.Length
  {
    run := ScanRun(s, ip);
    ghost var before := out[..];
    ok := op + 2 <= out.Length;
    if ok {
      out[op] := run;
      out[op + 1] := s[ip];
    }
    PendingStep(s, ip, before, out[..], op);
  }

  method EncodeInto(s: seq<byte>, out: array<byte>) returns (op: nat)
    modifies out
    ensures |Encode(s)| <= out.Length ==> op == |Encode(s)| && out[..op] == Encode(s)
    ensures |Encode(s)| > out.Length ==> op == 0
  {
    op := 0;
    var ip := 0;
    while ip < |s|
      invariant 0 <= ip <= |s| && Pending(s, ip, out[..], op)
      decreases |s| - ip
    {
      var run, ok := EmitRun(s, out, ip, op);
      if !ok {
        return 0;
      }
      op := op + 2;
      ip := ip + run;
    }
  }

  lemma RunIsMaximal(s: seq<byte>, i: nat, r: nat)
    requires i < |s|
    ensures IsRun(s, i, r) <==> r == Run(s, i)
    decreases |s| - i
  {
    if i + 1 < |s| && s[i + 1] == s[i] {
      RunIsMaximal(s, i + 1, if r > 1 then r - 1 else r);
      RunIsMaximal(s, i + 1, MAX_RUN);
    }
  }

  lemma PendingStep(s: seq<byte>, ip: nat, before: seq<byte>, after: seq<byte>, op: nat)
    requires ip < |s| && Pending(s, ip, before, op)
    requires |after| == |before|
    requires op + 2 <= |before| ==>
      after[..op] == before[..op] && after[op] == Run(s, ip) && after[op + 1] == s[ip]
    ensures op + 2 <= |Encode(s)|
    ensures op + 2 <= |before| ==> Pending(s, ip + Run(s, ip), after, op + 2)
  {
    TakePair(Encode(s), before, after, op, Run(s, ip), s[ip], EncodeFrom(s, ip + Run(s, ip)));
  }

  // Two bytes move from the part to be written to the part written.
  lemma TakePair(e: seq<byte>, before: seq<byte>, after: seq<byte>, op: nat, a: byte, b: byte, rest: seq<byte>)
    requires op <= |e| && e[op..] == [a, b] + rest
    requires |after| == |before| >= op && before[..op] == e[..op]
    requires op + 2 <= |before| ==> after[..op] == before[..op] && after[op] == a && after[op + 1] == b
    ensures op + 2 + |rest| == |e| && e[op + 2..] == rest
    ensures op + 2 <= |before| ==> after[..op + 2] == e[..op + 2]
  {
    assert e[op] == e[op..][0] && e[op + 1] == e[op..][1];
    assert e[op + 2..] == e[op..][2..];
  }

  // ---- decoder

  // After `op` bytes of output the pairs from ip on are still to be expanded.
  ghost predicate Unread(p: seq<byte>, ip: nat, out: seq<byte>, op: nat) {
    && ip <= |p| && op <= |out|
    && op + |Expand(p[ip..])| == |Expand(p)|
    && out[..op] == Expand(p)[..op]
    && Expand(p)[op..] == Expand(p[ip..])
  }

  method FillRun(out: array<byte>, op: nat, run: nat, v: byte)
    requires op + run <= out.Length
    modifies out
    ensures out[..op] == old(out[..op]) && out[op..op + run] == Repeat(v, run)
  {
    for i := 0 to run
      invariant forall k | 0 <= k < op :: out[k] == old(out[k])
      invariant forall k | op <= k < op + i :: out[k] == v
    {
      out[op + i] := v;
    }
  }

  method RleDecode(p: seq<byte>, out: array<byte>) returns (n: nat)
    modifies out
    ensures Accepts(p, out.Length) ==> n == |Expand(p)| && out[..n] == Expand(p)
    ensures !Accepts(p, out.Length) ==> n == 0
  {
    hide Expand;
    if |p| % 2 != 0 {
      return 0;
    }
    n := 0;
    var ip := 0;
    assert p[0..] == p;
    while ip < |p|
      invariant ip % 2 == 0 && Unread(p, ip, out[..], n)
      invariant forall i | 0 <= i < ip && i % 2 == 0 :: p[i] != 0
    {
      var run := p[ip];
      if run == 0 {
        return 0;
      }
      ghost var before := out[..];
      ExpandStep(p, ip);
      if n + run > out.Length {
        return 0;
      }
      FillRun(out, n, run, p[ip + 1]);
      TakeRun(Expand(p), before, out[..], n, Repeat(p[ip + 1], run), Expand(p[ip + 2..]));
      n := n + run;
      ip := ip + 2;
    }
    assert p[ip..] == [];
    ExpandNothing();
  }

  lemma ExpandNothing()
    ensures Expand([]) == []
  {
  }

  lemma ExpandStep(p: seq<byte>, ip: nat)
    requires ip + 2 <= |p|
    ensures Expand(p[ip..]) == Repeat(p[ip + 1], p[ip]) + Expand(p[ip + 2..])
  {
    assert p[ip..][2..] == p[ip + 2..];
  }

  // A run moves from the part to be written to the part written.
  lemma TakeRun(e: seq<byte>, before: seq<byte>, after: seq<byte>, op: nat, run: seq<byte>, rest: seq<byte>)
    requires op <= |e| && e[op..] == run + rest
    requires |after| == |before| && op + |run| <= |before| && before[..op] == e[..op]
    requires after[..op] == before[..op] && after[op..op + |run|] == run
    ensures op + |run| + |rest| == |e| && e[op + |run|..] == rest
    ensures after[..op + |run|] == e[..op + |run|]
  {
    assert e[op + |run|..] == e[op..][|run|..];
    assert after[..op + |run|] == after[..op] + after[op..op + |run|];
    assert e[..op + |run|] == e[..op] + e[op..][..|run|];
  }

  // ---- row delta

  method RleEncode(s: seq<byte>, out: array<byte>) returns (n: nat)
    modifies out
    ensures |Encode(s)| <= out.Length ==> n == |Encode(s)| && out[..n] == Encode(s)
    ensures |Encode(s)| > out.Length ==> n == 0
  {
    n := EncodeInto(s, out);
  }

  // The source codes the delta stream on the fly, without a scratch buffer.
  method RleEncodeDelta(s: seq<byte>, stride: nat, out: array<byte>) returns (n: nat)
    modifies out
    ensures stride == 0 ==> n == 0
    ensures stride > 0 && |Encode(Delta(s, stride))| <= out.Length ==>
      n == |Encode(Delta(s, stride))| && out[..n] == Encode(Delta(s, stride))
    ensures stride > 0 && |Encode(Delta(s, stride))| > out.Length ==> n == 0
  {
    if stride == 0 {
      return 0;
    }
    n := EncodeInto(Delta(s, stride), out);
  }

  method RleDecodeDelta(p: seq<byte>, stride: nat, out: array<byte>) returns (n: nat)
    modifies out
    ensures stride > 0 && Accepts(p, out.Length) ==>
      n == |Expand(p)| && out[..n] == Integrate(Expand(p), stride)
    ensures stride == 0 || !Accepts(p, out.Length) ==> n == 0
  {
    if stride == 0 {
      return 0;
    }
    n := RleDecode(p, out);
    ghost var d := out[..n];
    var i := stride;
    while i < n
      invariant stride <= i
      invariant forall k | 0 <= k < n && (k < stride || i <= k) :: out[k] == d[k]
      invariant forall k | stride <= k < i && k < n :: out[k] == Xor(d[k], out[k - stride])
    {
      out[i] := Xor(out[i], out[i - stride]);
      i := i + 1;
    }
    ghost var o := out[..n];
    forall k | 0 <= k < n
      ensures Delta(o, stride)[k] == d[k]
    {
      if k >= stride {
        XorCancels(d[k], o[k - stride]);
      }
    }
    assert Delta(o, stride) == d;
    IntegrateDelta(out[..n], stride);
  }

  // ---------------------------------------------------------------- theorems

  // Integrate undoes Delta for every stride, ragged last row included.
  lemma IntegrateDelta(s: seq<byte>, stride: nat)
    requires stride > 0
    ensures Integrate(Delta(s, stride), stride) == s
  {
    forall i | 0 <= i < |s|
      ensures Integrate(Delta(s, stride), stride)[i] == s[i]
    {
      IntegrateDeltaAt(s, stride, i);
    }
  }

  // Front to back: the byte one row up is already plain.
  lemma {:induction false} IntegrateDeltaAt(s: seq<byte>, stride: nat, i: nat)
    requires stride > 0 && i < |s|
    ensures Integrate(Delta(s, stride), stride)[i] == s[i]
  {
    IntegrateAt(Delta(s, stride), stride, i);
    if i >= stride {
      IntegrateDeltaAt(s, stride, i - stride);
      XorCancels(s[i], s[i - stride]);
    }
  }

  // ... and Delta undoes Integrate: every delta stream denotes one buffer.
  lemma DeltaIntegrate(d: seq<byte>, stride: nat)
    requires stride > 0
    ensures Delta(Integrate(d, stride), stride) == d
  {
    forall i | 0 <= i < |d|
      ensures Delta(Integrate(d, stride), stride)[i] == d[i]
    {
      IntegrateAt(d, stride, i);
      if i >= stride {
        XorCancels(d[i], Integrate(d, stride)[i - stride]);
      }
    }
  }

  lemma {:induction false} IntegrateAt(d: seq<byte>, stride: nat, i: nat)
    requires stride > 0 && i < |d|
    ensures Integrate(d, stride)[i] == if i < stride then d[i] else Xor(d[i], Integrate(d, stride)[i - stride])
  {
    if i < |d| - 1 {
      IntegrateAt(d[..|d| - 1], stride, i);
    }
  }

  // p is a readable code of s.
  predicate CodesFor(p: seq<byte>, s: seq<byte>) {
    WellFormed(p) && Expand(p) == s
  }

  lemma ExpandPair(count: byte, v: byte, rest: seq<byte>, s: seq<byte>)
    requires count != 0 && CodesFor(rest, s)
    ensures CodesFor([count, v] + rest, Repeat(v, count) + s)
  {
    var p := [count, v] + rest;
    assert p[2..] == rest;
    assert forall k | 2 <= k < |p| && k % 2 == 0 :: p[k] == rest[k - 2];
  }

  lemma JoinRun(s: seq<byte>, i: nat, r: nat)
    requires i < |s| && r == Run(s, i)
    ensures Repeat(s[i], r) + s[i + r..] == s[i..]
  {
    RunIsMaximal(s, i, r);
    assert s[i..] == s[i..i + r] + s[i + r..];
  }

  // The code of s[i..] and its expansion, built up together.
  lemma {:induction false} ExpandEncodeFrom(s: seq<byte>, i: nat) returns (e: seq<byte>, t: seq<byte>)
    requires i <= |s|
    ensures CodesFor(e, t)
    ensures e == EncodeFrom(s, i) && t == s[i..]
    decreases |s| - i
  {
    e, t := [], [];
    if i < |s| {
      var r := Run(s, i);
      var rest, tail := ExpandEncodeFrom(s, i + r);
      var c := Run(s, i);
      ExpandPair(c, s[i], rest, tail);
      e, t := [c, s[i]] + rest, Repeat(s[i], c) + tail;
      JoinRun(s, i, r);
    }
  }

  lemma ExpandEncode(s: seq<byte>)
    ensures CodesFor(Encode(s), s)
  {
    var e, t := ExpandEncodeFrom(s, 0);
    assert t == s;
  }

  // Both codecs round-trip whenever the output fits.
  lemma RoundTrip(s: seq<byte>, stride: nat)
    requires stride > 0
    ensures Accepts(Encode(s), |s|) && Expand(Encode(s)) == s
    ensures Accepts(Encode(Delta(s, stride)), |s|)
    ensures Integrate(Expand(Encode(Delta(s, stride))), stride) == s
  {
    ExpandEncode(s);
    ExpandEncode(Delta(s, stride));
    IntegrateDelta(s, stride);
  }

  // ---- the greedy code is the shortest one

  lemma {:induction false} LaterIsShorter(s: seq<byte>, i: nat, j: nat)
    requires i <= j <= |s|
    ensures |EncodeFrom(s, j)| <= |EncodeFrom(s, i)|
    decreases |s| - i
  {
    if i < j {
      LaterIsShorter(s, i + 1, j);
      // and one byte later is no longer: only a capped run shifts the pairs
      if Run(s, i) == MAX_RUN && i + 1 < |s| && Run(s, i + 1) == MAX_RUN {
        LaterIsShorter(s, i + MAX_RUN, i + 1 + MAX_RUN);
      }
    }
  }

  // No readable code of s[i..] is shorter than the greedy one.
  lemma {:induction false} GreedyIsMinimal(s: seq<byte>, i: nat, p: seq<byte>)
    requires i <= |s| && CodesFor(p, s[i..])
    ensures |EncodeFrom(s, i)| <= |p|
    decreases |p|
  {
    if p == [] {
      assert |s[i..]| == 0;
    } else {
      WellFormedTail(p);
      FirstRun(s, i, p[0], p[1], Expand(p[2..]));
      GreedyIsMinimal(s, i + p[0], p[2..]);
      GreedyStep(s, i, p[0], |p[2..]|);
    }
  }

  lemma GreedyStep(s: seq<byte>, i: nat, q: nat, len: nat)
    requires i < |s| && 1 <= q <= Run(s, i) && |EncodeFrom(s, i + q)| <= len
    ensures |EncodeFrom(s, i)| <= 2 + len
  {
    LaterIsShorter(s, i + q, i + Run(s, i));
  }

  lemma WellFormedTail(p: seq<byte>)
    requires WellFormed(p) && p != []
    ensures p[0] != 0 && WellFormed(p[2..])
  {
    assert forall k | 0 <= k < |p| - 2 && k % 2 == 0 :: p[2..][k] == p[k + 2];
  }

  lemma FirstRun(s: seq<byte>, i: nat, q: nat, v: byte, tail: seq<byte>)
    requires i <= |s| && 1 <= q <= MAX_RUN && s[i..] == Repeat(v, q) + tail
    ensures i + q <= |s| && s[i + q..] == tail && q <= Run(s, i)
  {
    assert forall k | 0 <= k < q :: s[i + k] == s[i..][k] == v;
    assert s[i + q..] == s[i..][q..];
    RunIsMaximal(s, i, Run(s, i));
  }

  // The encoder runs out of room only when no code at all would fit.
  lemma FitsIffSomeCodeFits(s: seq<byte>, cap: nat)
    ensures |Encode(s)| <= cap <==> exists p :: CodesFor(p, s) && |p| <= cap
  {
    ExpandEncode(s);
    if p :| CodesFor(p, s) && |p| <= cap {
      assert s[0..] == s;
      GreedyIsMinimal(s, 0, p);
    }
  }

  // The code of a run is its length and its value.
  lemma OneRun(v: byte, n: nat)
    requires 1 <= n <= MAX_RUN
    ensures Encode(Repeat(v, n)) == [n, v]
  {
    var s := Repeat(v, n);
    RunIsMaximal(s, 0, n);
    assert IsRun(s, 0, n) && s[0] == v;
    assert EncodeFrom(s, n) == [];
  }

  // A byte costs one pair at most.
  lemma {:induction false} HeadCost(s: seq<byte>, i: nat)
    requires i <= |s|
    ensures |EncodeFrom(s, 0)| <= 2 * i + |EncodeFrom(s, i)|
  {
    if i > 0 {
      HeadCost(s, i - 1);
      LaterIsShorter(s, i, i - 1 + Run(s, i - 1));
    }
  }

  // A stream that is constant from i on costs one pair per full run.
  lemma {:induction false} ConstantCost(s: seq<byte>, i: nat)
    requires i <= |s| && forall k | i <= k < |s| :: s[k] == 0
    ensures |EncodeFrom(s, i)| <= 2 * ((|s| - i + 254) / 255)
    decreases |s| - i
  {
    if i < |s| {
      assert |EncodeFrom(s, i)| == 2 + |EncodeFrom(s, i + Run(s, i))|;
      hide Run, EncodeFrom;
      ConstantRun(s, i);
      ConstantCost(s, i + Run(s, i));
      OnePairMore(|s| - i, Run(s, i));
    }
  }

  lemma OnePairMore(n: nat, r: nat)
    requires 1 <= r <= n && (r == MAX_RUN || r == n)
    ensures 1 + (n - r + 254) / 255 <= (n + 254) / 255
  {
  }

  lemma ConstantRun(s: seq<byte>, i: nat)
    requires i < |s| && forall k | i <= k < |s| :: s[k] == 0
    ensures Run(s, i) == MAX_RUN || i + Run(s, i) == |s|
  {
    RunIsMaximal(s, i, Run(s, i));
  }
}
