/**
 * The debug-property overlay of the game engine's scene: the text of the
 * reserved `__state__` property (the 1-based numbers of the object's active
 * states, comma-separated) and the list of lines drawn for at most
 * `propsMax` debug properties.
 */
module KxSceneDebug {
  import opened StdVector

  /** `unsigned int`. */
  type uint32 = x: nat | x < 0x1_0000_0000

  /** `unsigned short`. */
  type uint16 = x: nat | x < 0x1_0000

  const UINT16_MODULUS: nat := 0x1_0000

  /** The name reserved for the object-state pseudo property. */
  const STATE_PROP: string := "__state__"

  function Pow2(i: nat): nat
  {
    if i == 0 then 1 else 2 * Pow2(i - 1)
  }

  /** Bit `i` (counted from 0) of `n` is set: the lowest bit of `n` shifted right `i` times. */
  predicate BitSet(n: nat, i: nat)
  {
    if i == 0 then n % 2 == 1 else BitSet(n / 2, i - 1)
  }

  /** No bit of 0 is set. */
  lemma {:induction false} BitsOfZero(i: nat)
    ensures !BitSet(0, i)
  {
    if i > 0 {
      BitsOfZero(i - 1);
    }
  }

  /**
   * The positions, numbered from `first`, of the set bits of `state`, as the
   * loop of the `__state__` branch enumerates them: lowest bit first.
   */
  function SetBitPositions(state: nat, first: nat): (r: seq<nat>)
    ensures forall k :: 0 <= k < |r| ==> r[k] >= first
    ensures forall j, k :: 0 <= j < k < |r| ==> r[j] < r[k]
    decreases state
  {
    if state == 0 then []
    else (if state % 2 == 1 then [first] else []) + SetBitPositions(state / 2, first + 1)
  }

  /** The positions listed are exactly those of the set bits. */
  lemma {:induction false} SetBitPositionsExact(state: nat, first: nat)
    ensures forall p :: p in SetBitPositions(state, first) <==> p >= first && BitSet(state, p - first)
    decreases state
  {
    var r := SetBitPositions(state, first);
    if state == 0 {
      forall i: nat ensures !BitSet(state, i) {
        BitsOfZero(i);
      }
    } else {
      SetBitPositionsExact(state / 2, first + 1);
      var rest := SetBitPositions(state / 2, first + 1);
      forall p ensures p in r <==> p >= first && BitSet(state, p - first) {
        assert p in r <==> (p == first && state % 2 == 1) || p in rest;
      }
    }
  }

  /** A value below `2^w` has no set bit at position `w` or beyond. */
  lemma {:induction false} SetBitPositionsBounded(state: nat, first: nat, w: nat)
    requires state < Pow2(w)
    ensures forall k :: 0 <= k < |SetBitPositions(state, first)| ==> SetBitPositions(state, first)[k] < first + w
    decreases state
  {
    if state != 0 {
      assert w > 0;
      SetBitPositionsBounded(state / 2, first + 1, w - 1);
    }
  }

  /** Powers of two multiply by adding exponents. */
  lemma {:induction false} Pow2Add(a: nat, b: nat)
    ensures Pow2(a + b) == Pow2(a) * Pow2(b)
  {
    if a > 0 {
      Pow2Add(a - 1, b);
      assert Pow2(a + b) == 2 * Pow2(a - 1 + b);
    }
  }

  /** `2^32` is the bound of `unsigned int`. */
  lemma Pow2Is32Bit()
    ensures Pow2(32) == 0x1_0000_0000
  {
    assert Pow2(4) == 16;
    Pow2Add(4, 4);
    Pow2Add(8, 8);
    Pow2Add(16, 16);
  }

  /** An `unsigned int` state lists only numbers from 1 to 32. */
  lemma StateNumbersAtMost32(state: uint32)
    ensures forall p :: p in SetBitPositions(state, 1) ==> 1 <= p <= 32
  {
    Pow2Is32Bit();
    SetBitPositionsBounded(state, 1, 32);
  }

  predicate IsDigit(c: char)
  {
    '0' <= c <= '9'
  }

  /** `std::to_string` of a non-negative number: its decimal digits, most significant first. */
  function Decimal(n: nat): (s: string)
    ensures |s| > 0
    ensures forall i :: 0 <= i < |s| ==> IsDigit(s[i])
    decreases n
  {
    if n < 10 then [DigitChar(n)] else Decimal(n / 10) + [DigitChar(n % 10)]
  }

  function DigitValue(c: char): nat
    requires IsDigit(c)
  {
    c as int - '0' as int
  }

  /** The number a non-empty string of decimal digits denotes. */
  function ParseDecimal(s: string): nat
    requires |s| > 0 && forall i :: 0 <= i < |s| ==> IsDigit(s[i])
  {
    var d := DigitValue(s[|s| - 1]);
    if |s| == 1 then d else ParseDecimal(s[..|s| - 1]) * 10 + d
  }

  /** Reading back a printed number gives the number. */
  lemma {:induction false} DecimalRoundTrip(n: nat)
    ensures ParseDecimal(Decimal(n)) == n
    decreases n
  {
    if n >= 10 {
      DecimalRoundTrip(n / 10);
      var s := Decimal(n);
      assert s[..|s| - 1] == Decimal(n / 10);
    }
  }

  /** Numbers printed one after the other with a comma between each two. */
  function JoinCommas(xs: seq<nat>): string
    decreases |xs|
  {
    if xs == [] then ""
    else if |xs| == 1 then Decimal(xs[0])
    else JoinCommas(xs[..|xs| - 1]) + "," + Decimal(xs[|xs| - 1])
  }

  /** The comma-separated text names neither an empty item nor a leading or trailing comma. */
  lemma {:induction false} JoinCommasEdges(xs: seq<nat>)
    ensures JoinCommas(xs) == "" <==> xs == []
    ensures xs != [] ==> IsDigit(JoinCommas(xs)[0]) && IsDigit(JoinCommas(xs)[|JoinCommas(xs)| - 1])
    decreases |xs|
  {
    if |xs| > 1 {
      JoinCommasEdges(xs[..|xs| - 1]);
    }
  }

  /** The last comma of `s`, if any. */
  function LastComma(s: string): (r: Option<nat>)
    ensures r.Some? ==> r.value < |s| && s[r.value] == ','
    ensures r.Some? ==> forall k :: r.value < k < |s| ==> s[k] != ','
    ensures r.None? ==> forall k :: 0 <= k < |s| ==> s[k] != ','
  {
    if s == [] then None
    else if s[|s| - 1] == ',' then Some(|s| - 1)
    else LastComma(s[..|s| - 1])
  }

  /** Reads a comma-separated list of decimal numbers; `None` when some item is not a number. */
  function ParseCommaList(s: string): Option<seq<nat>>
    decreases |s|
  {
    if s == [] then Some([])
    else
      var item := match LastComma(s) case None => s case Some(i) => s[i + 1..];
      if item == [] || exists k :: 0 <= k < |item| && !IsDigit(item[k]) then None
      else match LastComma(s)
        case None => Some([ParseDecimal(item)])
        case Some(i) =>
          if i == 0 then None
          else match ParseCommaList(s[..i])
            case None => None
            case Some(front) => Some(front + [ParseDecimal(item)])
  }

  /** The state text can be read back into the list of numbers it was printed from. */
  lemma {:induction false} JoinCommasRoundTrip(xs: seq<nat>)
    ensures ParseCommaList(JoinCommas(xs)) == Some(xs)
    decreases |xs|
  {
    if |xs| == 1 {
      var s := Decimal(xs[0]);
      assert JoinCommas(xs) == s;
      assert LastComma(s) == None;
      assert !exists k :: 0 <= k < |s| && !IsDigit(s[k]);
      DecimalRoundTrip(xs[0]);
      assert [xs[0]] == xs;
    } else if |xs| > 1 {
      var front, last := xs[..|xs| - 1], xs[|xs| - 1];
      var j := JoinCommas(front);
      var d := Decimal(last);
      var s := j + "," + d;
      assert JoinCommas(xs) == s;
      JoinCommasEdges(front);
      assert LastComma(s) == Some(|j|) by {
        assert s[|j|] == ',';
        forall k | |j| < k < |s| ensures s[k] != ',' {
          assert s[k] == d[k - |j| - 1];
        }
        LastCommaIs(s, |j|);
      }
      assert s[|j| + 1..] == d;
      assert s[..|j|] == j;
      JoinCommasRoundTrip(front);
      DecimalRoundTrip(last);
      assert front + [last] == xs;
    }
  }

  /** A comma followed only by non-commas is the last comma. */
  lemma {:induction false} LastCommaIs(s: string, i: nat)
    requires i < |s| && s[i] == ','
    requires forall k :: i < k < |s| ==> s[k] != ','
    ensures LastComma(s) == Some(i)
    decreases |s|
  {
    if i < |s| - 1 {
      LastCommaIs(s[..|s| - 1], i);
    }
  }

  /** The text after `obj.__state__ = `: the 1-based numbers of the active states. */
  function StateText(state: nat): string
  {
    JoinCommas(SetBitPositions(state, 1))
  }

  /** A zero state prints nothing after the prefix. */
  lemma StateTextZero()
    ensures StateText(0) == ""
  {
  }

  /** Shifting the state right by one: its lowest bit, if set, is listed before the rest. */
  lemma ShiftState(st: nat, n: nat)
    requires st != 0
    ensures SetBitPositions(st, n) == (if st % 2 == 1 then [n] else []) + SetBitPositions(st / 2, n + 1)
  {
  }

  /** One more number extends the joined text by a comma and the number, or by the number alone when it is the first. */
  lemma JoinCommasSnoc(done: seq<nat>, n: nat)
    ensures JoinCommas(done + [n]) == if done == [] then Decimal(n) else JoinCommas(done) + "," + Decimal(n)
  {
    assert (done + [n])[..|done|] == done;
  }

  /**
   * The `__state__` line: the object's name, the property name, then the
   * state numbers, built by shifting the state right one bit at a time.
   */
  method FormatStateText(objName: string, propName: string, state: uint32) returns (text: string)
    ensures text == objName + "." + propName + " = " + StateText(state)
  {
    var prefix := objName + "." + propName + " = ";
    text := prefix;
    var first := true;
    var st: nat := state;
    var stateNum: nat := 1;
    ghost var done: seq<nat> := [];
    while st != 0
      invariant SetBitPositions(state, 1) == done + SetBitPositions(st, stateNum)
      invariant first <==> done == []
      invariant text == prefix + JoinCommas(done)
      decreases st
    {
      ghost var head: seq<nat> := if st % 2 == 1 then [stateNum] else [];
      ghost var rest := SetBitPositions(st / 2, stateNum + 1);
      ShiftState(st, stateNum);
      assert done + (head + rest) == (done + head) + rest;
      if st % 2 == 1 {
        JoinCommasSnoc(done, stateNum);
        ghost var before := text;
        if !first {
          text := text + ",";
        }
        text := text + Decimal(stateNum);
        assert text == prefix + JoinCommas(done + head) by {
          if first {
            assert text == (prefix + JoinCommas(done)) + Decimal(stateNum);
          } else {
            assert text == ((prefix + JoinCommas(done)) + ",") + Decimal(stateNum);
          }
        }
        first := false;
      } else {
        assert done + head == done;
      }
      done := done + head;
      st := st / 2;
      stateNum := stateNum + 1;
    }
    assert done + [] == done;
  }

  /** One entry of the debug-property list, with what the host answers for it. */
  datatype DebugProp = DebugProp(
    objName: string,         // the owner's name
    propName: string,        // the property name, or STATE_PROP
    state: uint32,           // the owner's state mask
    propText: Option<string>) // the property's text, None when the owner has no such property

  /** A line drawn at a screen position. */
  datatype TextLine = TextLine(text: string, x: int, y: int)

  /** The text drawn for one entry, if any. */
  function PropLine(p: DebugProp): Option<string>
  {
    if p.propName == STATE_PROP then Some(p.objName + "." + p.propName + " = " + StateText(p.state))
    else match p.propText
      case None => None
      case Some(t) => Some(p.objName + ": '" + p.propName + "' = " + t)
  }

  /** The lines drawn for `props` from height `y` on, each drawn line moving the next one down by `ySize`. */
  function DebugLines(props: seq<DebugProp>, x: int, y: int, ySize: int): seq<TextLine>
  {
    if props == [] then []
    else match PropLine(props[0])
      case None => DebugLines(props[1..], x, y, ySize)
      case Some(t) => [TextLine(t, x, y)] + DebugLines(props[1..], x, y + ySize, ySize)
  }

  /** Lines are drawn in property order, at most one per property, a fixed step apart. */
  lemma {:induction false} DebugLinesShape(props: seq<DebugProp>, x: int, y: int, ySize: int)
    ensures |DebugLines(props, x, y, ySize)| <= |props|
    ensures forall k :: 0 <= k < |DebugLines(props, x, y, ySize)| ==>
      DebugLines(props, x, y, ySize)[k].x == x && DebugLines(props, x, y, ySize)[k].y == y + k * ySize
    ensures (forall k :: 0 <= k < |props| ==> PropLine(props[k]).Some?) ==> |DebugLines(props, x, y, ySize)| == |props|
  {
    if props != [] {
      DebugLinesShape(props[1..], x, y, ySize);
      DebugLinesShape(props[1..], x, y + ySize, ySize);
      if PropLine(props[0]).Some? {
        var rest := DebugLines(props[1..], x, y + ySize, ySize);
        forall k | 1 <= k < 1 + |rest| ensures rest[k - 1].y == y + k * ySize {
          assert rest[k - 1].y == y + ySize + (k - 1) * ySize;
        }
      }
      if forall k :: 0 <= k < |props| ==> PropLine(props[k]).Some? {
        assert forall k :: 0 <= k < |props[1..]| ==> props[1..][k] == props[k + 1];
      }
    }
  }

  /**
   * One step of the drawing loop: after the lines of the entries before `i`,
   * entry `i`'s line, if any, is drawn at the current height and the lines of
   * the entries after it follow.
   */
  lemma DrawStep(props: seq<DebugProp>, i: nat, lines: seq<TextLine>, x: int, y0: int, y: int, ySize: int)
    requires i < |props|
    requires DebugLines(props, x, y0, ySize) == lines + DebugLines(props[i..], x, y, ySize)
    ensures PropLine(props[i]).None? ==>
      DebugLines(props, x, y0, ySize) == lines + DebugLines(props[i + 1..], x, y, ySize)
    ensures PropLine(props[i]).Some? ==>
      DebugLines(props, x, y0, ySize)
        == (lines + [TextLine(PropLine(props[i]).value, x, y)]) + DebugLines(props[i + 1..], x, y + ySize, ySize)
  {
    assert props[i..][0] == props[i] && props[i..][1..] == props[i + 1..];
  }

  /** The height after `n` lines, each `ySize` below the previous. */
  function Advance(y: int, n: nat, ySize: int): int
  {
    if n == 0 then y else Advance(y, n - 1, ySize) + ySize
  }

  lemma {:induction false} AdvanceIs(y: int, n: nat, ySize: int)
    ensures Advance(y, n, ySize) == y + n * ySize
  {
    if n > 0 {
      AdvanceIs(y, n - 1, ySize);
    }
  }

  /** How many entries are looked at: the list size, stored in an `unsigned short`, capped at `propsMax`. */
  function PropsConsidered(size: nat, propsMax: uint16): (n: nat)
    ensures n <= propsMax && n <= size
    ensures size < UINT16_MODULUS ==> n == if size <= propsMax then size else propsMax
  {
    var numprop := size % UINT16_MODULUS;
    if numprop > propsMax then propsMax else numprop
  }

  /** Because the size is stored in 16 bits, a list of exactly 65536 entries draws nothing. */
  lemma PropsConsideredWraps(propsMax: uint16)
    ensures PropsConsidered(UINT16_MODULUS, propsMax) == 0
  {
  }

  /** The text drawn for one entry, as the loop body builds it. */
  method RenderProp(p: DebugProp) returns (line: Option<string>)
    ensures line == PropLine(p)
  {
    if p.propName == STATE_PROP {
      var text := FormatStateText(p.objName, p.propName, p.state);
      line := Some(text);
    } else if p.propText.Some? {
      line := Some(p.objName + ": '" + p.propName + "' = " + p.propText.value);
    } else {
      line := None;
    }
  }

  /**
   * `RenderDebugProperties`: the lines drawn for the first `PropsConsidered`
   * entries at `xcoord + xindent`, starting at `ycoord`; returns the lines
   * and the height after the last one.
   */
  method RenderDebugProperties(props: seq<DebugProp>, xindent: int, ysize: int, xcoord: int, ycoord: int,
                               propsMax: uint16)
    returns (lines: seq<TextLine>, ycoordOut: int)
    ensures lines == DebugLines(props[..PropsConsidered(|props|, propsMax)], xcoord + xindent, ycoord, ysize)
    ensures |lines| <= propsMax
    ensures ycoordOut == ycoord + |lines| * ysize
  {
    var numprop := |props| % UINT16_MODULUS;
    if numprop > propsMax {
      numprop := propsMax;
    }
    ghost var shown := props[..numprop];
    var x := xcoord + xindent;
    lines := [];
    ycoordOut := ycoord;
    for i := 0 to numprop
      invariant DebugLines(shown, x, ycoord, ysize) == lines + DebugLines(shown[i..], x, ycoordOut, ysize)
      invariant ycoordOut == Advance(ycoord, |lines|, ysize)
    {
      assert shown[i] == props[i];
      DrawStep(shown, i, lines, x, ycoord, ycoordOut, ysize);
      var line := RenderProp(props[i]);
      if line.Some? {
        lines := lines + [TextLine(line.value, x, ycoordOut)];
        ycoordOut := ycoordOut + ysize;
      }
    }
    assert shown[numprop..] == [];
    assert numprop == PropsConsidered(|props|, propsMax);
    DebugLinesShape(shown, x, ycoord, ysize);
    AdvanceIs(ycoord, |lines|, ysize);
  }
}
