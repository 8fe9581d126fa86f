/** Exact multiplication of a 256-bit work by a 32-bit factor, word by word. */
module WorkMultiplication {
  import opened Prelude
  import opened MachineInts
  import ChainTypes

  const WORD: int := 0x1_0000_0000
  const WORK_SIZE := 32

  datatype ChainWorkOverflow = ChainWorkOverflow

  /** `base` to the power `n`. */
  ghost function Pow(base: nat, n: nat): nat {
    if n == 0 then 1 else base * Pow(base, n - 1)
  }

  /** The number whose digits in the given base are `digits`, least significant first. */
  ghost function Value(base: nat, digits: seq<int>): int {
    if digits == [] then 0
    else
      var n := |digits| - 1;
      Value(base, digits[..n]) + digits[n] * Pow(base, n)
  }

  ghost function Ints(bytes: seq<u8>): (r: seq<int>)
    ensures |r| == |bytes|
  {
    seq(|bytes|, i requires 0 <= i < |bytes| => bytes[i] as int)
  }

  ghost function Reverse(s: seq<int>): (r: seq<int>)
    ensures |r| == |s|
  {
    if s == [] then [] else Reverse(s[1..]) + [s[0]]
  }

  /** Numbers written with least and with most significant byte first. */
  ghost function LeValue(bytes: seq<u8>): int { Value(256, Ints(bytes)) }
  ghost function BeValue(bytes: seq<u8>): int { Value(256, Reverse(Ints(bytes))) }

  // ---------- words ----------

  function ToBe(w: u32): (b: seq<u8>)
    ensures |b| == WORD_SIZE
    ensures w as int == b[3] as int + 0x100 * b[2] as int + 0x1_0000 * b[1] as int + 0x100_0000 * b[0] as int
  {
    var high, low := (w as int) / 0x1_0000, (w as int) % 0x1_0000;
    [(high / 0x100) as u8, (high % 0x100) as u8, (low / 0x100) as u8, (low % 0x100) as u8]
  }

  /** The 32-bit words of a byte sequence, least significant first. */
  function Chunks(bytes: seq<u8>): (ws: seq<u32>)
    requires |bytes| % WORD_SIZE == 0
    ensures |ws| * WORD_SIZE == |bytes|
  {
    if bytes == [] then []
    else
      var n := |bytes| - WORD_SIZE;
      Chunks(bytes[..n]) + [FromLe(bytes[n..])]
  }

  ghost function WordInts(ws: seq<u32>): (r: seq<int>)
    ensures |r| == |ws|
  {
    seq(|ws|, i requires 0 <= i < |ws| => ws[i] as int)
  }

  ghost function WordsValue(ws: seq<u32>): int { Value(WORD, WordInts(ws)) }

  /** The bytes of words, most significant first. */
  ghost function BeBytes(ws: seq<u32>): (b: seq<u8>)
    ensures |b| == WORD_SIZE * |ws|
  {
    if ws == [] then []
    else
      var n := |ws| - 1;
      ToBe(ws[n]) + BeBytes(ws[..n])
  }

  lemma WordsSnoc(ws: seq<u32>, w: u32)
    ensures WordsValue(ws + [w]) == WordsValue(ws) + w as int * Pow(WORD, |ws|)
  {
    var n := |ws|;
    var all := WordInts(ws + [w]);
    assert all[..n] == WordInts(ws);
    assert all[n] == w as int;
  }

  // ---------- bytes and words denote the same number ----------

  lemma ValueSnoc(base: nat, digits: seq<int>, d: int)
    ensures Value(base, digits + [d]) == Value(base, digits) + d * Pow(base, |digits|)
  {
    assert (digits + [d])[..|digits|] == digits;
  }

  lemma Distribute4(a: int, b: int, c: int, d: int, m: int)
    ensures a * m + b * (256 * m) + c * (65536 * m) + d * (16777216 * m) == (a + 256 * b + 65536 * c + 16777216 * d) * m
  {
  }

  lemma Pow256(n: nat)
    ensures Pow(256, n + 1) == 256 * Pow(256, n)
    ensures Pow(256, n + 2) == 65536 * Pow(256, n)
    ensures Pow(256, n + 3) == 16777216 * Pow(256, n)
    ensures Pow(256, n + 4) == WORD * Pow(256, n)
  {
    assert Pow(256, n + 1) == 256 * Pow(256, n);
    assert Pow(256, n + 2) == 256 * Pow(256, n + 1);
    assert Pow(256, n + 3) == 256 * Pow(256, n + 2);
    assert Pow(256, n + 4) == 256 * Pow(256, n + 3);
  }

  lemma {:induction false} PowWord(k: nat)
    ensures Pow(WORD, k) == Pow(256, WORD_SIZE * k)
  {
    if k > 0 {
      PowWord(k - 1);
      Pow256(WORD_SIZE * (k - 1));
      assert WORD_SIZE * (k - 1) + 4 == WORD_SIZE * k;
    }
  }

  lemma FourDigits(digits: seq<int>, a: int, b: int, c: int, d: int)
    ensures Value(256, digits + [a, b, c, d]) ==
            Value(256, digits) + (a + 256 * b + 65536 * c + 16777216 * d) * Pow(256, |digits|)
  {
    var n := |digits|;
    var d1, d2, d3 := digits + [a], digits + [a, b], digits + [a, b, c];
    assert d2 == d1 + [b] && d3 == d2 + [c] && digits + [a, b, c, d] == d3 + [d];
    ValueSnoc(256, digits, a);
    ValueSnoc(256, d1, b);
    ValueSnoc(256, d2, c);
    ValueSnoc(256, d3, d);
    Pow256(n);
    Distribute4(a, b, c, d, Pow(256, n));
  }

  lemma {:induction false} ChunksValue(bytes: seq<u8>)
    requires |bytes| % WORD_SIZE == 0
    ensures WordsValue(Chunks(bytes)) == LeValue(bytes)
    decreases |bytes|
  {
    if bytes != [] {
      var n := |bytes| - WORD_SIZE;
      var front, last := bytes[..n], bytes[n..];
      ChunksValue(front);
      WordsSnoc(Chunks(front), FromLe(last));
      FourDigits(Ints(front), last[0] as int, last[1] as int, last[2] as int, last[3] as int);
      assert Ints(bytes) == Ints(front) + [last[0] as int, last[1] as int, last[2] as int, last[3] as int];
      PowWord(|Chunks(front)|);
    }
  }

  lemma {:induction false} ReverseConcat(a: seq<int>, b: seq<int>)
    ensures Reverse(a + b) == Reverse(b) + Reverse(a)
    decreases |a|
  {
    if a == [] {
      assert a + b == b;
    } else {
      assert (a + b)[1..] == a[1..] + b;
      ReverseConcat(a[1..], b);
    }
  }

  lemma ReverseFour(a: int, b: int, c: int, d: int)
    ensures Reverse([a, b, c, d]) == [d, c, b, a]
  {
    ReverseConcat([a, b], [c, d]);
    ReverseConcat([a], [b]);
    ReverseConcat([c], [d]);
    assert [a, b, c, d] == [a, b] + [c, d] && [a, b] == [a] + [b] && [c, d] == [c] + [d];
    assert Reverse([a]) == [a] && Reverse([b]) == [b] && Reverse([c]) == [c] && Reverse([d]) == [d];
  }

  lemma {:induction false} BeBytesValue(ws: seq<u32>)
    ensures BeValue(BeBytes(ws)) == WordsValue(ws)
    decreases |ws|
  {
    if ws != [] {
      var n := |ws| - 1;
      var front, b := ws[..n], ToBe(ws[n]);
      var low := Ints(BeBytes(front));
      BeBytesValue(front);
      assert Ints(BeBytes(ws)) == [b[0] as int, b[1] as int, b[2] as int, b[3] as int] + low;
      ReverseConcat([b[0] as int, b[1] as int, b[2] as int, b[3] as int], low);
      ReverseFour(b[0] as int, b[1] as int, b[2] as int, b[3] as int);
      FourDigits(Reverse(low), b[3] as int, b[2] as int, b[1] as int, b[0] as int);
      assert ws == front + [ws[n]];
      WordsSnoc(front, ws[n]);
      PowWord(n);
    }
  }

  // ---------- the multiplication ----------

  lemma MulMono(a: int, b: int, c: int)
    requires a <= b && 0 <= c
    ensures a * c <= b * c
  {
  }

  lemma ProductFits(word: u32, factor: u32, carry: u64)
    requires carry as int < WORD
    ensures word as int * factor as int + carry as int < WORD * WORD
  {
    MulMono(word as int, WORD - 1, factor as int);
  }

  /** One word: the low half joins the result, the high half is carried on. */
  lemma CarryStep(done: int, low: int, carry: int, m: int, word: int, factor: int, digit: int, carry': int)
    requires low + carry * m == done * factor
    requires word * factor + carry == digit + WORD * carry'
    ensures (low + digit * m) + carry' * (WORD * m) == (done + word * m) * factor
  {
    assert (digit + WORD * carry') * m == (word * factor + carry) * m;
    assert (digit + WORD * carry') * m == digit * m + carry' * (WORD * m);
    assert (word * factor + carry) * m == (word * m) * factor + carry * m;
    assert (done + word * m) * factor == done * factor + (word * m) * factor;
  }

  lemma {:induction false} ValueBelow(ws: seq<u32>)
    ensures 0 <= WordsValue(ws) < Pow(WORD, |ws|)
    decreases |ws|
  {
    if ws != [] {
      var n := |ws| - 1;
      ValueBelow(ws[..n]);
      assert ws == ws[..n] + [ws[n]];
      WordsSnoc(ws[..n], ws[n]);
      var m, w := Pow(WORD, n), ws[n] as int;
      MulMono(w, WORD - 1, m);
      MulMono(0, w, m);
      assert Pow(WORD, |ws|) == WORD * m;
    }
  }

  /** The bytes of a work the other way round. */
  function Flipped(bytes: seq<u8>): (r: seq<u8>)
    ensures |r| == |bytes|
  {
    seq(|bytes|, i requires 0 <= i < |bytes| => bytes[|bytes| - 1 - i])
  }

  lemma {:induction false} ReverseAt(s: seq<int>, i: nat)
    requires i < |s|
    ensures Reverse(s)[i] == s[|s| - 1 - i]
    decreases |s|
  {
    if i < |s| - 1 {
      ReverseAt(s[1..], i);
    }
  }

  lemma FlippedValue(bytes: seq<u8>)
    ensures LeValue(Flipped(bytes)) == BeValue(bytes)
  {
    forall i: nat | i < |bytes|
      ensures Reverse(Ints(bytes))[i] == Ints(Flipped(bytes))[i]
    {
      ReverseAt(Ints(bytes), i);
    }
    assert Reverse(Ints(bytes)) == Ints(Flipped(bytes));
  }

  /** Before word `i`: the words done so far, with the carry on top, are `factor` times the words read so far. */
  ghost predicate Multiplied(words: seq<u32>, factor: u32, i: nat, low: seq<u32>, carry: u64)
    requires i <= |words|
  {
    && |low| == i
    && carry as int < WORD
    && WordsValue(low) + carry as int * Pow(WORD, i) == WordsValue(words[..i]) * factor as int
  }

  lemma MultipliedStep(words: seq<u32>, factor: u32, i: nat, low: seq<u32>, carry: u64, digit: u32, carry': u64)
    requires i < |words| && Multiplied(words, factor, i, low, carry)
    requires words[i] as int * factor as int + carry as int == digit as int + WORD * carry' as int
    requires carry' as int < WORD
    ensures Multiplied(words, factor, i + 1, low + [digit], carry')
  {
    WordsSnoc(low, digit);
    assert words[..i + 1] == words[..i] + [words[i]];
    WordsSnoc(words[..i], words[i]);
    CarryStep(WordsValue(words[..i]), WordsValue(low), carry as int, Pow(WORD, i), words[i] as int, factor as int,
              digit as int, carry' as int);
  }

  lemma CarryDecides(low: int, carry: int, m: int, total: int)
    requires 0 <= low < m && 0 <= carry && low + carry * m == total
    ensures carry == 0 <==> total < m
  {
    if carry > 0 {
      MulMono(1, carry, m);
    }
  }

  /** All words done: the carry decides whether the product fits. */
  lemma MultipliedAll(words: seq<u32>, factor: u32, low: seq<u32>, carry: u64)
    requires Multiplied(words, factor, |words|, low, carry)
    ensures carry == 0 <==> WordsValue(words) * factor as int < Pow(WORD, |words|)
    ensures carry == 0 ==> WordsValue(low) == WordsValue(words) * factor as int
  {
    assert words[..|words|] == words;
    ValueBelow(low);
    CarryDecides(WordsValue(low), carry as int, Pow(WORD, |words|), WordsValue(words) * factor as int);
  }

  method CopyWord(a: array<u8>, pos: nat, word: seq<u8>)
    requires |word| == WORD_SIZE && pos + WORD_SIZE <= a.Length
    modifies a
    ensures a[pos..] == word + old(a[pos + WORD_SIZE..])
  {
    ghost var rest := a[pos + WORD_SIZE..];
    a[pos], a[pos + 1], a[pos + 2], a[pos + 3] := word[0], word[1], word[2], word[3];
    assert a[pos + WORD_SIZE..] == rest;
    assert a[pos..] == a[pos..pos + WORD_SIZE] + a[pos + WORD_SIZE..];
  }

  /** Multiplies the words of a work, least significant first, into a big-endian buffer. The 64-bit
      intermediate never overflows. */
  method MultiplyWords(words: seq<u32>, factor: u32) returns (r: Result<seq<u8>, ChainWorkOverflow>)
    ensures r.Ok? <==> WordsValue(words) * factor as int < Pow(WORD, |words|)
    ensures r.Ok? ==> |r.value| == WORD_SIZE * |words| && BeValue(r.value) == WordsValue(words) * factor as int
  {
    var result := new u8[WORD_SIZE * |words|];
    var carryHigh: u64 := 0;
    ghost var low: seq<u32> := [];
    for i := 0 to |words|
      invariant Multiplied(words, factor, i, low, carryHigh)
      invariant result[WORD_SIZE * (|words| - i)..] == BeBytes(low)
    {
      ProductFits(words[i], factor, carryHigh);
      var product: u64 := words[i] as u64 * factor as u64 + carryHigh;
      var digit := (product % 0x1_0000_0000) as u32;
      ghost var before := carryHigh;
      carryHigh := product / 0x1_0000_0000;
      MultipliedStep(words, factor, i, low, before, digit, carryHigh);
      CopyWord(result, WORD_SIZE * (|words| - i - 1), ToBe(digit));
      assert (low + [digit])[..|low|] == low;
      low := low + [digit];
    }
    MultipliedAll(words, factor, low, carryHigh);
    if carryHigh > 0 {
      return Err(ChainWorkOverflow);
    }
    BeBytesValue(low);
    return Ok(result[..]);
  }

  lemma WordsOfWork(work: seq<u8>)
    requires |work| % WORD_SIZE == 0
    ensures var words := Chunks(Flipped(work));
            && WordsValue(words) == BeValue(work) && WORD_SIZE * |words| == |work|
            && Pow(WORD, |words|) == Pow(256, |work|)
    ensures 0 <= BeValue(work) < Pow(256, |work|)
  {
    FlippedValue(work);
    ChunksValue(Flipped(work));
    PowWord(|Chunks(Flipped(work))|);
    ValueBelow(Chunks(Flipped(work)));
  }

  /** The limit at which the chain state reports an overflow is the first number that does not fit 256 bits. */
  lemma WorkLimit()
    ensures ChainTypes.WORK_LIMIT == Pow(256, WORK_SIZE)
  {
    Pow256(0);
    Pow256(4);
    Pow256(8);
    Pow256(12);
    Pow256(16);
    Pow256(20);
    Pow256(24);
    Pow256(28);
  }

  /** The product of a 256-bit work, given by its bytes with the most significant first, and a 32-bit
      factor: exact when it fits 256 bits, an overflow error otherwise. */
  method MultiplyWorkByU32(work: seq<u8>, factor: u32) returns (r: Result<seq<u8>, ChainWorkOverflow>)
    requires |work| == WORK_SIZE
    ensures r.Ok? <==> BeValue(work) * factor as int < ChainTypes.WORK_LIMIT
    ensures r.Ok? ==> |r.value| == |work| && BeValue(r.value) == BeValue(work) * factor as int
  {
    var words := Chunks(Flipped(work));
    WordsOfWork(work);
    WorkLimit();
    if factor == 0 {
      var zero := seq(|work|, _ => 0 as u8);
      ZeroValue(zero);
      return Ok(zero);
    }
    if factor == 1 {
      return Ok(work);
    }
    r := MultiplyWords(words, factor);
  }

  lemma ZeroValue(bytes: seq<u8>)
    requires forall i :: 0 <= i < |bytes| ==> bytes[i] == 0
    ensures BeValue(bytes) == 0
  {
    FlippedValue(bytes);
    ZeroDigits(Ints(Flipped(bytes)));
  }

  lemma {:induction false} ZeroDigits(digits: seq<int>)
    requires forall i :: 0 <= i < |digits| ==> digits[i] == 0
    ensures Value(256, digits) == 0
    decreases |digits|
  {
    if digits != [] {
      ZeroDigits(digits[..|digits| - 1]);
    }
  }
}
