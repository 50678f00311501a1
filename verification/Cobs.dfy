/**
 * Consistent overhead byte stuffing (src/core/cobs.c and the vector generator).
 * The specification is a pair of functions on octet sequences; the loops over
 * caller-owned buffers are proved against them.
 */
module Cobs {
  import opened Bytes

  const FULL_RUN: nat := 254

  predicate NonZero(s: seq<byte>) {
    forall i :: 0 <= i < |s| ==> s[i] != 0
  }

  /** One block: the code octet followed by its run. */
  function Block(run: seq<byte>): (s: seq<byte>)
    requires |run| <= FULL_RUN
  {
    [|run| + 1] + run
  }

  /** The encoding of `data` given that `run` has been read into the open block. */
  function EncodeFrom(data: seq<byte>, run: seq<byte>): (w: seq<byte>)
    requires |run| < FULL_RUN
    ensures |w| >= 1 + |run| + |data|
    decreases |data|
  {
    if data == [] then
      Block(run)
    else if data[0] == 0 then
      Block(run) + EncodeFrom(data[1..], [])
    else if |run| + 1 == FULL_RUN then
      Block(run + [data[0]]) + EncodeFrom(data[1..], [])
    else
      EncodeFrom(data[1..], run + [data[0]])
  }

  function Encode(data: seq<byte>): seq<byte> {
    EncodeFrom(data, [])
  }

  /** The message carried by a sequence of whole blocks. */
  function DecodeBlocks(w: seq<byte>): (m: Option<seq<byte>>)
    decreases |w|
  {
    if w == [] then Some([])
    else if w[0] == 0 || w[0] > |w| || !NonZero(w[1..w[0]]) then None
    else
      var rest := w[w[0]..];
      match DecodeBlocks(rest)
      case None => None
      case Some(tail) => Some(w[1..w[0]] + Separator(w[0], rest) + tail)
  }

  /** A zero stands between two blocks unless the first one is full. */
  function Separator(code: byte, rest: seq<byte>): seq<byte> {
    if code != 255 && rest != [] then [0] else []
  }

  function Decode(w: seq<byte>): Option<seq<byte>> {
    if w == [] then None else DecodeBlocks(w)
  }

  // ----- no zero octet, and the exact size -----

  lemma {:induction false} EncodeFromNonZero(data: seq<byte>, run: seq<byte>)
    requires |run| < FULL_RUN && NonZero(run)
    ensures NonZero(EncodeFrom(data, run))
    decreases |data|
  {
    if data != [] {
      if data[0] == 0 || |run| + 1 == FULL_RUN {
        EncodeFromNonZero(data[1..], []);
      } else {
        EncodeFromNonZero(data[1..], run + [data[0]]);
      }
    }
  }

  /** The delimiter never occurs inside an encoded record. */
  lemma EncodeNonZero(data: seq<byte>)
    ensures NonZero(Encode(data))
  {
    EncodeFromNonZero(data, []);
  }

  /** Length of the zero-free prefix. */
  function RunLength(data: seq<byte>): (n: nat)
    ensures n <= |data| && NonZero(data[..n])
    ensures n < |data| ==> data[n] == 0
    decreases |data|
  {
    if data == [] || data[0] == 0 then 0 else
      var n := RunLength(data[1..]);
      assert data[..n + 1] == [data[0]] + data[1..][..n];
      n + 1
  }

  /** How many full 254-octet blocks the maximal zero-free runs of `data` hold. */
  function FullBlocks(data: seq<byte>): nat {
    FullBlocksFrom(data, 0)
  }

  /** The same when `open` octets of the first run came before `data`. */
  function FullBlocksFrom(data: seq<byte>, open: nat): nat
    decreases |data|
  {
    var n := RunLength(data);
    (open + n) / FULL_RUN + if n == |data| then 0 else FullBlocksFrom(data[n + 1..], 0)
  }

  lemma FullBlocksStep(data: seq<byte>, open: nat)
    requires data != [] && data[0] != 0 && open < FULL_RUN
    ensures FullBlocksFrom(data, open) ==
            if open + 1 == FULL_RUN then 1 + FullBlocksFrom(data[1..], 0) else FullBlocksFrom(data[1..], open + 1)
  {
    var n := RunLength(data);
    assert RunLength(data[1..]) == n - 1;
    assert n < |data| ==> data[n + 1..] == data[1..][n..];
    assert open + 1 == FULL_RUN ==> (open + n) / FULL_RUN == 1 + (n - 1) / FULL_RUN;
  }

  lemma {:induction false} EncodeFromSize(data: seq<byte>, run: seq<byte>)
    requires |run| < FULL_RUN
    ensures |EncodeFrom(data, run)| == |run| + |data| + 1 + FullBlocksFrom(data, |run|)
    decreases |data|
  {
    if data != [] {
      if data[0] == 0 {
        EncodeFromSize(data[1..], []);
      } else {
        FullBlocksStep(data, |run|);
        EncodeFromSize(data[1..], if |run| + 1 == FULL_RUN then [] else run + [data[0]]);
      }
    }
  }

  lemma EncodeSize(data: seq<byte>)
    ensures |Encode(data)| == |data| + 1 + FullBlocks(data)
  {
    EncodeFromSize(data, []);
  }

  lemma {:induction false} FullBlocksBound(data: seq<byte>)
    ensures FullBlocks(data) * FULL_RUN <= |data|
    decreases |data|
  {
    var n := RunLength(data);
    if n < |data| {
      FullBlocksBound(data[n + 1..]);
    }
  }

  /** `pbns_cobs_max_encoded_size` on a machine whose `size_t` ends at `sizeMax`. */
  function MaxEncodedSize(length: nat, sizeMax: nat): Option<nat> {
    var overhead := length / FULL_RUN + 1;
    if length > sizeMax - overhead then None else Some(length + overhead)
  }

  /** The advertised maximum holds for every input and is reached by every zero-free one. */
  lemma MaxEncodedSizeIsTight(data: seq<byte>, sizeMax: nat)
    ensures MaxEncodedSize(|data|, sizeMax).None? <==> |data| + |data| / FULL_RUN + 1 > sizeMax
    ensures MaxEncodedSize(|data|, sizeMax).Some? ==>
              && |Encode(data)| <= MaxEncodedSize(|data|, sizeMax).value
              && (NonZero(data) ==> |Encode(data)| == MaxEncodedSize(|data|, sizeMax).value)
  {
    EncodeSize(data);
    FullBlocksBound(data);
  }

  // ----- round trip -----

  lemma DecodeBlock(run: seq<byte>, rest: seq<byte>)
    requires |run| <= FULL_RUN && NonZero(run)
    ensures DecodeBlocks(Block(run) + rest) ==
            match DecodeBlocks(rest)
            case None => None
            case Some(tail) => Some(run + Separator(|run| + 1, rest) + tail)
  {
    var w := Block(run) + rest;
    assert w[1..w[0]] == run && w[w[0]..] == rest;
  }

  lemma {:induction false} DecodeEncodeFrom(data: seq<byte>, run: seq<byte>)
    requires |run| < FULL_RUN && NonZero(run)
    ensures DecodeBlocks(EncodeFrom(data, run)) == Some(run + data)
    decreases |data|
  {
    if data == [] {
      DecodeBlock(run, []);
      assert Block(run) + [] == Block(run) && run + [] + [] == run == run + data;
    } else if data[0] == 0 {
      DecodeEncodeFrom(data[1..], []);
      DecodeBlock(run, EncodeFrom(data[1..], []));
      assert run + [0] + ([] + data[1..]) == run + data;
    } else if |run| + 1 == FULL_RUN {
      DecodeEncodeFrom(data[1..], []);
      DecodeBlock(run + [data[0]], EncodeFrom(data[1..], []));
      assert run + [data[0]] + [] + ([] + data[1..]) == run + data;
    } else {
      DecodeEncodeFrom(data[1..], run + [data[0]]);
      assert run + [data[0]] + data[1..] == run + data;
    }
  }

  /** Every message survives encoding and decoding. */
  lemma RoundTrip(data: seq<byte>)
    ensures Decode(Encode(data)) == Some(data)
  {
    DecodeEncodeFrom(data, []);
    assert [] + data == data;
  }

  // ----- the decoder accepts nothing else -----

  /** The last block of `w` is a full one. */
  predicate EndsFull(w: seq<byte>)
    requires DecodeBlocks(w).Some?
    decreases |w|
  {
    w != [] && if w[0] == |w| then w[0] == 255 else EndsFull(w[w[0]..])
  }

  lemma {:induction false} EncodeRun(run: seq<byte>, more: seq<byte>, rest: seq<byte>)
    requires NonZero(more) && |run| + |more| < FULL_RUN
    ensures EncodeFrom(more + rest, run) == EncodeFrom(rest, run + more)
    decreases |more|
  {
    if more == [] {
      assert more + rest == rest && run + more == run;
    } else {
      assert (more + rest)[1..] == more[1..] + rest;
      EncodeRun(run + [more[0]], more[1..], rest);
      assert run + [more[0]] + more[1..] == run + more;
    }
  }

  lemma EncodeFullRun(run: seq<byte>, rest: seq<byte>)
    requires NonZero(run) && |run| == FULL_RUN
    ensures Encode(run + rest) == Block(run) + Encode(rest)
  {
    var head, last := run[..FULL_RUN - 1], run[FULL_RUN - 1];
    assert run + rest == head + ([last] + rest) && run == head + [last];
    EncodeRun([], head, [last] + rest);
    assert [] + head == head && ([last] + rest)[1..] == rest;
  }

  lemma EncodeShortRun(run: seq<byte>, rest: seq<byte>)
    requires NonZero(run) && |run| < FULL_RUN
    ensures Encode(run) == Block(run)
    ensures Encode(run + [0] + rest) == Block(run) + Encode(rest)
  {
    EncodeRun([], run, []);
    EncodeRun([], run, [0] + rest);
    assert run + [] == run && [] + run == run;
    assert run + [0] + rest == run + ([0] + rest) && ([0] + rest)[1..] == rest;
  }

  /**
   * An accepted record is the encoding of its message, or that encoding without
   * the final empty block; the second happens exactly when it ends with a full block.
   */
  lemma {:induction false} DecodeExact(w: seq<byte>)
    requires Decode(w).Some?
    ensures Encode(Decode(w).value) == if EndsFull(w) then w + [1] else w
    decreases |w|
  {
    var run, rest := w[1..w[0]], w[w[0]..];
    assert w == Block(run) + rest;
    if rest == [] {
      assert DecodeBlocks(rest) == Some([]) && run + [] + [] == run;
      if w[0] == 255 {
        EncodeFullRun(run, []);
        assert run + [] == run && Encode([]) == [1];
      } else {
        EncodeShortRun(run, []);
      }
    } else {
      DecodeExact(rest);
      var tail := Decode(rest).value;
      if w[0] == 255 {
        assert Decode(w).value == run + tail;
        EncodeFullRun(run, tail);
      } else {
        assert Decode(w).value == run + [0] + tail;
        EncodeShortRun(run, tail);
      }
    }
  }

  /** The last `n` octets of `m` are a maximal zero-free run. */
  predicate EndsOnRun(m: seq<byte>, n: nat) {
    n <= |m| && NonZero(m[|m| - n..]) && (n < |m| ==> m[|m| - n - 1] == 0)
  }

  /** The message ends with a zero-free run that full blocks fill up. */
  ghost predicate EndsOnFullRun(m: seq<byte>) {
    exists n: nat :: n > 0 && n % FULL_RUN == 0 && EndsOnRun(m, n)
  }

  lemma NonZeroJoin(a: seq<byte>, b: seq<byte>)
    ensures NonZero(a + b) <==> NonZero(a) && NonZero(b)
  {
    assert a == (a + b)[..|a|] && b == (a + b)[|a|..];
  }

  /** A run that stops inside `rest` is the same run with anything in front. */
  lemma RunInRest(front: seq<byte>, rest: seq<byte>, n: nat)
    requires n < |rest| || (n == |rest| && front != [] && front[|front| - 1] == 0)
    ensures EndsOnRun(front + rest, n) <==> EndsOnRun(rest, n)
  {
    assert (front + rest)[|front + rest| - n..] == rest[|rest| - n..];
  }

  /** A run as long as `rest` or longer takes in the whole zero-free run in front of it. */
  lemma RunPastRest(run: seq<byte>, rest: seq<byte>, n: nat)
    requires NonZero(run) && run != [] && n >= |rest|
    ensures EndsOnRun(run + rest, n) <==> n == |run| + |rest| && NonZero(rest)
  {
    var m := run + rest;
    NonZeroJoin(run, rest);
    assert n < |m| ==> m[|m| - n - 1] == run[|m| - n - 1];
    assert n == |m| ==> m[|m| - n..] == m;
  }

  lemma FullRunGoesOn(run: seq<byte>, rest: seq<byte>)
    requires NonZero(run) && |run| == FULL_RUN && (rest == [] || EndsOnFullRun(rest))
    ensures EndsOnFullRun(run + rest)
  {
    if rest == [] {
      RunPastRest(run, rest, FULL_RUN);
    } else {
      var n: nat :| n > 0 && n % FULL_RUN == 0 && EndsOnRun(rest, n);
      if n < |rest| {
        RunInRest(run, rest, n);
      } else {
        assert rest[|rest| - n..] == rest;
        RunPastRest(run, rest, n + FULL_RUN);
      }
    }
  }

  lemma FullRunWentOn(run: seq<byte>, rest: seq<byte>)
    requires NonZero(run) && |run| == FULL_RUN && EndsOnFullRun(run + rest) && rest != []
    ensures EndsOnFullRun(rest)
  {
    var n: nat :| n > 0 && n % FULL_RUN == 0 && EndsOnRun(run + rest, n);
    if n < |rest| {
      RunInRest(run, rest, n);
    } else {
      RunPastRest(run, rest, n);
      assert EndsOnRun(rest, |rest|);
    }
  }

  lemma FullRunBehindZero(run: seq<byte>, rest: seq<byte>)
    ensures EndsOnFullRun(run + [0] + rest) <==> EndsOnFullRun(rest)
  {
    var front := run + [0];
    forall n: nat ensures EndsOnRun(front + rest, n) <==> EndsOnRun(rest, n) {
      if n <= |rest| {
        RunInRest(front, rest, n);
      } else if n <= |front + rest| {
        assert (front + rest)[|front + rest| - n..][n - |rest| - 1] == 0;
      }
    }
  }

  lemma FullRunBlock(run: seq<byte>, rest: seq<byte>)
    requires NonZero(run) && |run| <= FULL_RUN
    ensures |run| == FULL_RUN ==> (EndsOnFullRun(run + rest) <==> rest == [] || EndsOnFullRun(rest))
    ensures EndsOnFullRun(run + [0] + rest) <==> EndsOnFullRun(rest)
    ensures EndsOnFullRun(run) ==> |run| == FULL_RUN
  {
    FullRunBehindZero(run, rest);
    if |run| == FULL_RUN && (rest == [] || EndsOnFullRun(rest)) {
      FullRunGoesOn(run, rest);
    } else if |run| == FULL_RUN && EndsOnFullRun(run + rest) {
      FullRunWentOn(run, rest);
    }
  }

  /** The first block of a message, and its encoding. */
  lemma FirstBlock(m: seq<byte>) returns (run: seq<byte>, rest: seq<byte>)
    ensures |run| <= FULL_RUN && NonZero(run)
    ensures (|run| == FULL_RUN && m == run + rest) || (|run| < FULL_RUN && m == run + [0] + rest)
            || (|run| < FULL_RUN && m == run)
    ensures m != run ==> Encode(m) == Block(run) + Encode(rest)
    ensures m == run && |run| == FULL_RUN ==> rest == [] && Encode(m) == Block(run) + [1]
  {
    var n := RunLength(m);
    if n >= FULL_RUN {
      run, rest := m[..FULL_RUN], m[FULL_RUN..];
      assert NonZero(run) by {
        assert run == m[..n][..FULL_RUN];
      }
      assert m == run + rest;
      EncodeFullRun(run, rest);
    } else if n < |m| {
      run, rest := m[..n], m[n + 1..];
      assert m == run + [0] + rest;
      EncodeShortRun(run, rest);
    } else {
      run, rest := m, [];
    }
  }

  /** The encoding of such a message ends with an empty block, and is accepted without it. */
  lemma {:induction false} EmptyBlockIsOptional(m: seq<byte>) returns (w: seq<byte>)
    requires EndsOnFullRun(m)
    ensures Encode(m) == w + [1] && Decode(w) == Some(m)
    decreases |m|
  {
    var run, rest := FirstBlock(m);
    FullRunBlock(run, rest);
    if m == run {
      w := Block(run);
      DecodeBlock(run, []);
      assert w + [] == w && run + [] + [] == run;
    } else {
      var front := EmptyBlockIsOptional(rest);
      assert run + [] == run;
      w := OneBlockMore(run, rest, front, m);
    }
  }

  lemma OneBlockMore(run: seq<byte>, rest: seq<byte>, front: seq<byte>, m: seq<byte>) returns (w: seq<byte>)
    requires |run| <= FULL_RUN && NonZero(run) && Encode(rest) == front + [1] && Decode(front) == Some(rest)
    requires m == run + Separator(|run| + 1, front) + rest && Encode(m) == Block(run) + Encode(rest)
    ensures Encode(m) == w + [1] && Decode(w) == Some(m)
  {
    w := Block(run) + front;
    DecodeBlock(run, front);
    assert Block(run) + (front + [1]) == w + [1];
  }

  lemma EndsFullStep(w: seq<byte>)
    requires Decode(w).Some? && EndsFull(w)
    ensures NonZero(w[1..w[0]]) && DecodeBlocks(w[w[0]..]).Some?
    ensures w[w[0]..] == [] ==> w[0] == 255 && Decode(w).value == w[1..w[0]]
    ensures w[w[0]..] != [] ==> EndsFull(w[w[0]..])
  {
    var run := w[1..w[0]];
    assert run + [] + [] == run;
  }

  lemma FullRunGrows(run: seq<byte>, rest: seq<byte>, tail: seq<byte>)
    requires NonZero(run) && |run| <= FULL_RUN && rest != [] && EndsOnFullRun(tail)
    ensures EndsOnFullRun(run + Separator(|run| + 1, rest) + tail)
  {
    FullRunBlock(run, tail);
    var separator := Separator(|run| + 1, rest);
    if separator == [] {
      assert run + separator + tail == run + tail;
    }
  }

  /** A record that ends with a full block carries a message that ends on a full run. */
  lemma {:induction false} FullBlockEndsRun(w: seq<byte>)
    requires Decode(w).Some? && EndsFull(w)
    ensures EndsOnFullRun(Decode(w).value)
    decreases |w|
  {
    EndsFullStep(w);
    var run, rest := w[1..w[0]], w[w[0]..];
    if rest == [] {
      FullRunBlock(run, []);
      assert run + [] == run;
    } else {
      FullBlockEndsRun(rest);
      FullRunGrows(run, rest, DecodeBlocks(rest).value);
    }
  }

  /**
   * The records accepted for a message are its encoding and, when the message ends on a full
   * run, that encoding without its last octet, which is then the empty block.
   */
  lemma DecodeAcceptsExactly(w: seq<byte>, m: seq<byte>)
    ensures Decode(w) == Some(m) <==> Encode(m) == w || (EndsOnFullRun(m) && Encode(m) == w + [1])
  {
    RoundTrip(m);
    if Decode(w) == Some(m) {
      DecodeExact(w);
      if EndsFull(w) {
        FullBlockEndsRun(w);
      }
    }
    if EndsOnFullRun(m) && Encode(m) == w + [1] {
      var front := EmptyBlockIsOptional(m);
      assert front == (front + [1])[..|front|] == w;
    }
  }

  /** A message has at most two accepted records, one of them a prefix of the other. */
  lemma AtMostTwoRecords(u: seq<byte>, w: seq<byte>)
    requires Decode(u).Some? && Decode(u) == Decode(w)
    ensures u == w || u + [1] == w || w + [1] == u
  {
    DecodeExact(u);
    DecodeExact(w);
    assert u + [1] == w + [1] ==> u == (u + [1])[..|u|] == w;
  }

  // ----- the loops over caller-owned buffers -----

  /** Closing the open block moves it to the finished part. */
  lemma CloseBlock(done: seq<byte>, run: seq<byte>, rest: seq<byte>)
    requires |run| < FULL_RUN && rest != []
    ensures rest[0] == 0 ==> done + EncodeFrom(rest, run) == done + Block(run) + EncodeFrom(rest[1..], [])
    ensures rest[0] != 0 && |run| + 1 == FULL_RUN ==>
              done + EncodeFrom(rest, run) == done + Block(run + [rest[0]]) + EncodeFrom(rest[1..], [])
    ensures rest[0] != 0 && |run| + 1 < FULL_RUN ==>
              done + EncodeFrom(rest, run) == done + EncodeFrom(rest[1..], run + [rest[0]])
  {
    assert forall x, y :: done + (x + y) == (done + x) + y;
  }

  /** Stores the code octet in front of the run it counts. */
  method PutCode(output: array<byte>, codeIndex: nat, code: byte, ghost done: seq<byte>, ghost run: seq<byte>)
    requires codeIndex + code <= output.Length && 1 <= code && |run| == code - 1 && |done| == codeIndex
    requires output[..codeIndex] == done && output[codeIndex + 1..codeIndex + code] == run
    modifies output
    ensures output[..codeIndex + code] == done + Block(run)
  {
    output[codeIndex] := code;
  }

  /** `pbns_cobs_encode`: `output` is the caller's buffer, its length the capacity. */
  method EncodeInto(input: seq<byte>, output: array<byte>) returns (status: Status, written: nat)
    modifies output
    ensures status == if |Encode(input)| <= output.Length then OK else LIMIT
    ensures status == OK ==> written == |Encode(input)| && output[..written] == Encode(input)
    ensures status != OK ==> written == 0
  {
    if output.Length == 0 {
      return LIMIT, 0;
    }
    var readIndex, writeIndex, codeIndex: nat, code := 0, 1, 0, 1;
    ghost var done: seq<byte>, run: seq<byte> := [], [];
    assert done + EncodeFrom(input, run) == Encode(input) && input[0..] == input;
    while readIndex < |input|
      invariant 0 <= readIndex <= |input|
      invariant 1 <= code < 255 && writeIndex == codeIndex + code <= output.Length
      invariant |run| == code - 1 && |done| == codeIndex
      invariant output[..codeIndex] == done && output[codeIndex + 1..writeIndex] == run
      invariant done + EncodeFrom(input[readIndex..], run) == Encode(input)
    {
      ghost var rest := input[readIndex..];
      CloseBlock(done, run, rest);
      assert rest[1..] == input[readIndex + 1..];
      if input[readIndex] == 0 {
        PutCode(output, codeIndex, code, done, run);
        done, run := done + Block(run), [];
        code := 1;
        codeIndex := writeIndex;
        if writeIndex >= output.Length {
          return LIMIT, 0;
        }
        writeIndex := writeIndex + 1;
        readIndex := readIndex + 1;
        continue;
      }
      if writeIndex >= output.Length {
        return LIMIT, 0;
      }
      output[writeIndex] := input[readIndex];
      run := run + [input[readIndex]];
      writeIndex := writeIndex + 1;
      readIndex := readIndex + 1;
      code := code + 1;
      assert output[codeIndex + 1..writeIndex] == run && output[..codeIndex] == done;
      if code == 255 {
        PutCode(output, codeIndex, code, done, run);
        done, run := done + Block(run), [];
        code := 1;
        codeIndex := writeIndex;
        if writeIndex >= output.Length {
          return LIMIT, 0;
        }
        writeIndex := writeIndex + 1;
      }
    }
    PutCode(output, codeIndex, code, done, run);
    status, written := OK, writeIndex;
  }

  /** The generator's encoder: the same state machine over a growing byte array. */
  method EncodeAppending(data: seq<byte>) returns (output: seq<byte>)
    ensures output == Encode(data)
  {
    output := [0];
    var codeIndex: nat, code := 0, 1;
    ghost var done: seq<byte>, run: seq<byte> := [], [];
    assert done + EncodeFrom(data, run) == Encode(data) && data[0..] == data;
    for index := 0 to |data|
      invariant 1 <= code < 255 && |output| == codeIndex + code
      invariant |run| == code - 1 && |done| == codeIndex
      invariant output[..codeIndex] == done && output[codeIndex + 1..] == run
      invariant done + EncodeFrom(data[index..], run) == Encode(data)
    {
      ghost var rest := data[index..];
      CloseBlock(done, run, rest);
      assert rest[1..] == data[index + 1..];
      if data[index] == 0 {
        output := output[codeIndex := code];
        done, run := done + Block(run), [];
        assert output == done;
        codeIndex := |output|;
        output := output + [0];
        code := 1;
        continue;
      }
      output := output + [data[index]];
      run := run + [data[index]];
      code := code + 1;
      assert output[codeIndex + 1..] == run && output[..codeIndex] == done;
      if code == 0xff {
        output := output[codeIndex := code];
        done, run := done + Block(run), [];
        assert output == done;
        codeIndex := |output|;
        output := output + [0];
        code := 1;
      }
    }
    output := output[codeIndex := code];
    assert output == done + Block(run);
  }

  /** The inner loop of the decoder: copies one run, stopping at a zero octet. */
  method CopyRun(input: seq<byte>, readIndex: nat, runLength: nat, output: array<byte>, writeIndex: nat)
    returns (clean: bool)
    requires readIndex + runLength <= |input| && writeIndex + runLength <= output.Length
    modifies output
    ensures clean <==> NonZero(input[readIndex..readIndex + runLength])
    ensures clean ==> output[..writeIndex + runLength] ==
                      old(output[..writeIndex]) + input[readIndex..readIndex + runLength]
  {
    ghost var run := input[readIndex..readIndex + runLength];
    for offset := 0 to runLength
      invariant NonZero(run[..offset])
      invariant output[..writeIndex + offset] == old(output[..writeIndex]) + run[..offset]
    {
      var value := input[readIndex + offset];
      assert value == run[offset] && run[..offset + 1] == run[..offset] + [value];
      if value == 0 {
        return false;
      }
      output[writeIndex + offset] := value;
    }
    assert run[..runLength] == run;
    clean := true;
  }

  method PutZero(output: array<byte>, at: nat)
    requires at < output.Length
    modifies output
    ensures output[..at + 1] == old(output[..at]) + [0]
  {
    output[at] := 0;
  }

  /** The room the decoder asks for, block by block, before it meets an error or the end. */
  function Demand(w: seq<byte>): (n: nat)
    ensures n <= |w|
    decreases |w|
  {
    if w == [] || w[0] == 0 || w[0] > |w| then 0
    else if !NonZero(w[1..w[0]]) then w[0] - 1
    else var rest := w[w[0]..]; w[0] - 1 + |Separator(w[0], rest)| + Demand(rest)
  }

  /** For a decodable record that is the size of its message. */
  lemma {:induction false} DemandIsSize(w: seq<byte>)
    requires DecodeBlocks(w).Some?
    ensures Demand(w) == |DecodeBlocks(w).value|
    decreases |w|
  {
    if w != [] {
      DemandIsSize(w[w[0]..]);
    }
  }

  /**
   * What the decoder reports for a buffer of `capacity` octets: too small a buffer is met
   * first where the blocks up to the first error already ask for more.
   */
  predicate DecodeOutcome(input: seq<byte>, capacity: nat, status: Status, written: nat) {
    && status == (if Demand(input) > capacity then LIMIT else if Decode(input).None? then FORMAT else OK)
    && written == (if status == OK then |Decode(input).value| else 0)
  }

  /** In particular a decodable record succeeds exactly when its message fits. */
  lemma DecodableOutcome(input: seq<byte>, capacity: nat, status: Status, written: nat)
    requires DecodeOutcome(input, capacity, status, written) && Decode(input).Some?
    ensures status == if |Decode(input).value| <= capacity then OK else LIMIT
  {
    DemandIsSize(input);
  }

  /** What taking one block off `rest`, behind what is `done` already, comes to. */
  predicate BlockOutcome(
    done: seq<byte>, rest: seq<byte>, capacity: nat, status: Status, written: seq<byte>, left: seq<byte>)
  {
    match status
    case OK =>
      && Prepend(done, DecodeBlocks(rest)) == Prepend(written, DecodeBlocks(left))
      && |done| + Demand(rest) == |written| + Demand(left)
    case FORMAT => DecodeBlocks(rest).None? && |done| + Demand(rest) <= capacity
    case LIMIT => |done| + Demand(rest) > capacity
    case _ => false
  }

  /** Copies a block that is wholly there and fits, and the zero that follows it, if any. */
  method TakeRun(input: seq<byte>, start: nat, output: array<byte>, at: nat)
    returns (status: Status, readIndex: nat, writeIndex: nat)
    requires start < |input| && 0 < input[start] <= |input| - start
    requires at + input[start] - 1 <= output.Length && at <= start
    modifies output
    ensures start < readIndex <= |input| && writeIndex <= output.Length && writeIndex <= readIndex
    ensures BlockOutcome(old(output[..at]), input[start..], output.Length, status,
                         output[..writeIndex], input[readIndex..])
  {
    ghost var done, rest := output[..at], input[start..];
    var code: nat := input[start];
    BlockAt(input, start, code);
    readIndex, writeIndex := start + code, at + code - 1;
    var clean := CopyRun(input, start + 1, code - 1, output, at);
    status := FORMAT;
    if clean {
      PrependBlock(done, rest);
      status := OK;
      if code != 255 && readIndex != |input| {
        if writeIndex == output.Length {
          status := LIMIT;
        } else {
          PutZero(output, writeIndex);
          writeIndex := writeIndex + 1;
        }
      }
    }
  }

  /** The decoder's loop body: one block and the zero that follows it, if any. */
  method DecodeOne(input: seq<byte>, start: nat, output: array<byte>, at: nat)
    returns (status: Status, readIndex: nat, writeIndex: nat)
    requires start < |input| && at <= output.Length && at <= start
    modifies output
    ensures start < readIndex <= |input| && writeIndex <= output.Length && writeIndex <= readIndex
    ensures BlockOutcome(old(output[..at]), input[start..], output.Length, status,
                         output[..writeIndex], input[readIndex..])
  {
    var code: nat := input[start];
    status, readIndex, writeIndex := FORMAT, start + 1, at;
    if code != 0 && code - 1 <= |input| - readIndex {
      if code - 1 <= output.Length - writeIndex {
        status, readIndex, writeIndex := TakeRun(input, start, output, at);
      } else {
        BlockAt(input, start, code);
        status := LIMIT;
      }
    }
  }

  /** `pbns_cobs_decode`. */
  method DecodeInto(input: seq<byte>, output: array<byte>) returns (status: Status, written: nat)
    modifies output
    ensures DecodeOutcome(input, output.Length, status, written)
    ensures status == OK ==> written <= output.Length && output[..written] == Decode(input).value
  {
    if |input| == 0 {
      return FORMAT, 0;
    }
    var readIndex, writeIndex: nat := 0, 0;
    assert input[0..] == input;
    assert DecodeBlocks(input).Some? ==> [] + DecodeBlocks(input).value == DecodeBlocks(input).value;
    while readIndex < |input|
      invariant 0 <= readIndex <= |input| && writeIndex <= output.Length && writeIndex <= readIndex
      invariant DecodeBlocks(input) == Prepend(output[..writeIndex], DecodeBlocks(input[readIndex..]))
      invariant Demand(input) == writeIndex + Demand(input[readIndex..])
    {
      status, readIndex, writeIndex := DecodeOne(input, readIndex, output, writeIndex);
      if status != OK {
        return status, 0;
      }
    }
    status, written := OK, writeIndex;
  }

  lemma BlockAt(input: seq<byte>, at: nat, code: nat)
    requires 1 <= code && at + code <= |input|
    ensures input[at..][1..code] == input[at + 1..at + code]
    ensures input[at..][code..] == input[at + code..]
  {
  }

  function Prepend(head: seq<byte>, tail: Option<seq<byte>>): Option<seq<byte>> {
    if tail.None? then None else Some(head + tail.value)
  }

  lemma PrependBlock(done: seq<byte>, rest: seq<byte>)
    requires rest != [] && 0 < rest[0] <= |rest| && NonZero(rest[1..rest[0]])
    ensures var after, copied := rest[rest[0]..], done + rest[1..rest[0]];
            var taken := if rest[0] != 255 && after != [] then copied + [0] else copied;
            BlockOutcome(done, rest, 0, OK, taken, after)
  {
    var after := rest[rest[0]..];
    if DecodeBlocks(after).Some? {
      Regroup(done, rest[1..rest[0]], Separator(rest[0], after), DecodeBlocks(after).value);
    }
  }

  lemma Regroup(a: seq<byte>, b: seq<byte>, c: seq<byte>, d: seq<byte>)
    ensures a + (b + c + d) == (if c == [] then a + b else a + b + c) + d
  {
    assert a + (b + c + d) == a + b + c + d;
    assert c == [] ==> a + b + c == a + b;
  }
}
