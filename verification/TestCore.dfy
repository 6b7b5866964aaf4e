/**
 The deterministic libretro test core: pads read bit by bit, two halves of one picture rendered
 in place, and save states.
 */
module TestCore {
  import opened Text
  import opened Words

  const WIDTH: nat := 320
  const HEIGHT: nat := 240
  const PIXELS: nat := 76800
  const HOST_BASE: bv32 := 0x0020_50a0
  const GUEST_BASE: bv32 := 0x00a0_5020
  const STATE_BYTES: nat := 16
  const TWO_32: nat := 0x1_0000_0000

  datatype CoreState = CoreState(frame: U64, input0: U16, input1: U16)

  const BLANK: CoreState := CoreState(0, 0, 0)

  /** The frontend's answers to `input_state_cb(port, JOYPAD, 0, id)`; no callback, no answers. */
  type Pads = Option<(nat, nat) -> int>

  // ---- input --------------------------------------------------------------------------------------

  const BUTTONS: seq<nat> := [0, 3, 4, 5, 6, 7]

  predicate Pressed(pads: Pads, port: nat, button: nat) {
    pads.Some? && pads.value(port, button) != 0
  }

  /** Bits as a number, lowest first. */
  function Word(bits: seq<bool>): nat {
    if bits == [] then 0 else (if bits[0] then 1 else 0) + 2 * Word(bits[1..])
  }

  predicate Bit(word: nat, k: nat) {
    if k == 0 then word % 2 == 1 else Bit(word / 2, k - 1)
  }

  lemma {:induction false} WordAppend(bits: seq<bool>, bit: bool)
    ensures Word(bits + [bit]) == Word(bits) + (if bit then Pow2(|bits|) else 0)
    ensures Word(bits) < Pow2(|bits|)
  {
    if bits == [] {
      assert ([] + [bit])[1..] == [];
    } else {
      assert (bits + [bit])[1..] == bits[1..] + [bit];
      WordAppend(bits[1..], bit);
    }
  }

  function Buttons(pads: Pads, port: nat): seq<bool> {
    seq(6, k requires 0 <= k < 6 => Pressed(pads, port, BUTTONS[k]))
  }

  function Pad(pads: Pads, port: nat): U16 {
    assert Word(Buttons(pads, port)) < 64 by {
      WordAppend(Buttons(pads, port), false);
      assert Pow2(6) == 64;
    }
    Word(Buttons(pads, port))
  }

  method ReadPad(pads: Pads, port: nat) returns (result: U16)
    ensures result == Pad(pads, port)
  {
    ghost var bits := Buttons(pads, port);
    result := 0;
    if pads.None? {
      NoBits(bits);
      return;
    }
    var index := 0;
    while index < |BUTTONS|
      invariant 0 <= index <= |BUTTONS| && result == Word(bits[..index])
    {
      WordAppend(bits[..index], bits[index]);
      WordAppend(bits[..index + 1], false);
      assert bits[..index + 1] == bits[..index] + [bits[index]];
      Pow2Grows(index + 1, 6);
      assert Pow2(6) == 64;
      if Pressed(pads, port, BUTTONS[index]) {
        // Every bit set so far is below this one, so setting it adds it.
        result := result + Pow2(index);
      }
      index := index + 1;
    }
    assert bits[..6] == bits;
  }

  lemma {:induction false} NoBits(bits: seq<bool>)
    requires forall k :: 0 <= k < |bits| ==> !bits[k]
    ensures Word(bits) == 0
  {
    if bits != [] {
      NoBits(bits[1..]);
    }
  }

  lemma {:induction false} Pow2Grows(a: nat, b: nat)
    requires a <= b
    ensures Pow2(a) <= Pow2(b)
    decreases b
  {
    if a < b {
      Pow2Grows(a, b - 1);
    }
  }

  lemma {:induction false} BitsAreReadBack(bits: seq<bool>, k: nat)
    ensures Bit(Word(bits), k) <==> k < |bits| && bits[k]
    decreases k, |bits|
  {
    if bits == [] {
      if k > 0 {
        BitsAreReadBack(bits, k - 1);
      }
    } else if k > 0 {
      assert Word(bits) / 2 == Word(bits[1..]);
      BitsAreReadBack(bits[1..], k - 1);
    }
  }

  /** The bits of a pad word: B, start, up, down, left and right, by libretro's numbers, and no other. */
  lemma ButtonsAreReadBack(pads: Pads, port: nat, k: nat)
    ensures Bit(Pad(pads, port), k) <==> pads.Some? && k < 6 && pads.value(port, [0, 3, 4, 5, 6, 7][k]) != 0
  {
    BitsAreReadBack(Buttons(pads, port), k);
  }

  /** A pad word is zero exactly when none of the six is pressed. */
  lemma IdleExactlyWhen(pads: Pads, port: nat)
    ensures Pad(pads, port) == 0 <==>
              forall k :: 0 <= k < 6 ==> pads.None? || pads.value(port, [0, 3, 4, 5, 6, 7][k]) == 0
  {
    if Pad(pads, port) == 0 {
      forall k | 0 <= k < 6 ensures pads.None? || pads.value(port, [0, 3, 4, 5, 6, 7][k]) == 0 {
        ButtonsAreReadBack(pads, port, k);
        NoBitOfZero(k);
      }
    } else {
      var bits := Buttons(pads, port);
      if forall k :: 0 <= k < 6 ==> pads.None? || pads.value(port, [0, 3, 4, 5, 6, 7][k]) == 0 {
        assert forall k :: 0 <= k < 6 ==> BUTTONS[k] == [0, 3, 4, 5, 6, 7][k] && !bits[k];
        NoBits(bits);
      }
    }
  }

  lemma {:induction false} NoBitOfZero(k: nat)
    ensures !Bit(0, k)
  {
    if k > 0 {
      NoBitOfZero(k - 1);
    }
  }

  // ---- picture --------------------------------------------------------------------------------------

  function Active(input: U16, base: bv32): bv32 {
    if input == 0 then base else base ^ 0x003f_3f3f
  }

  /** The checkerboard phase: sums of 32-bit unsigned numbers, of which only the lowest bit counts. */
  function Grid(x: nat, y: nat, frame: U64): nat {
    (x / 16 + y / 16 + frame / 30 % TWO_32) % TWO_32 % 2
  }

  lemma LowestBitSurvives(a: nat)
    ensures a % TWO_32 % 2 == a % 2
  {
    var q, r := a / TWO_32, a % TWO_32;
    assert a == 2 * (0x8000_0000 * q) + r;
    assert (2 * (0x8000_0000 * q) + r) % 2 == r % 2;
  }

  lemma ParityOfASum(a: nat, b: nat, c: nat)
    requires b % 2 == c % 2
    ensures (a + b) % 2 == (a + c) % 2
  {
  }

  /** The 32-bit wrap-around never shows: the board is 16-pixel squares that flip every half second. */
  lemma GridIsParity(x: nat, y: nat, frame: U64)
    ensures Grid(x, y, frame) == (x / 16 + y / 16 + frame / 30) % 2
  {
    LowestBitSurvives(x / 16 + y / 16 + frame / 30 % TWO_32);
    LowestBitSurvives(frame / 30);
    ParityOfASum(x / 16 + y / 16, frame / 30 % TWO_32, frame / 30);
  }

  function Shade(x: nat, y: nat, frame: U64): bv32 {
    if Grid(x, y, frame) != 0 then 0x0010_1010 else 0
  }

  /** Addition of 32-bit colours, which wraps around. */
  function Brighter(colour: bv32, shade: bv32): bv32 {
    colour + shade
  }

  /** One pixel in terms of its half's input. */
  function HalfPixel(x: nat, y: nat, frame: U64, input: U16, base: bv32): bv32 {
    Brighter(Active(input, base), Shade(x, y, frame))
  }

  /** The colours in numbers: blue and orange halves, each inverted while its player presses, under a light board. */
  lemma PixelsAre(state: CoreState, x: nat, y: nat)
    ensures var own: bv32 := if x < 160 then (if state.input0 == 0 then 0x0020_50a0 else 0x001f_6f9f)
                             else (if state.input1 == 0 then 0x00a0_5020 else 0x009f_6f1f);
            var lit := (x / 16 + y / 16 + state.frame / 30) % 2 == 1;
            PixelOf(state, x, y) == Brighter(own, if lit then 0x0010_1010 else 0)
  {
    GridIsParity(x, y, state.frame);
    hide Grid, Brighter;
  }

  /** Every pixel as a function of the state alone. */
  function PixelOf(state: CoreState, x: nat, y: nat): bv32 {
    if x < WIDTH / 2 then HalfPixel(x, y, state.frame, state.input0, HOST_BASE)
    else HalfPixel(x, y, state.frame, state.input1, GUEST_BASE)
  }

  function Index(x: nat, y: nat): nat {
    y * WIDTH + x
  }

  /** The buffer shows the state's picture. */
  ghost predicate Shows(pixels: seq<bv32>, state: CoreState) {
    |pixels| == PIXELS && forall x: nat, y: nat :: x < WIDTH && y < HEIGHT ==> pixels[Index(x, y)] == PixelOf(state, x, y)
  }

  /** A state has one picture. */
  lemma OnePicturePerState(a: seq<bv32>, b: seq<bv32>, state: CoreState)
    requires Shows(a, state) && Shows(b, state)
    ensures a == b
  {
    forall i | 0 <= i < PIXELS ensures a[i] == b[i] {
      var x, y := i % WIDTH, i / WIDTH;
      assert i == Index(x, y);
      assert a[Index(x, y)] == PixelOf(state, x, y) == b[Index(x, y)];
    }
  }

  // ---- painting in place ------------------------------------------------------------------------------

  /** A half being painted: its columns, and how far the loops have come. */
  datatype Brush = Brush(startX: nat, endX: nat, frame: U64, input: U16, base: bv32) {
    predicate Done(x: nat, y: nat, u: nat, v: nat) {
      startX <= u < endX && (v < y || (v == y && u < x))
    }

    function Colour(u: nat, v: nat): bv32 {
      HalfPixel(u, v, frame, input, base)
    }
  }

  /** Exactly the pixels the loops passed have their new colour. */
  ghost predicate Painted(before: seq<bv32>, after: seq<bv32>, brush: Brush, x: nat, y: nat) {
    && |before| == |after| == PIXELS
    && forall u: nat, v: nat :: u < WIDTH && v < HEIGHT ==>
         after[Index(u, v)] == if brush.Done(x, y, u, v) then brush.Colour(u, v) else before[Index(u, v)]
  }

  lemma NothingPainted(before: seq<bv32>, brush: Brush)
    requires |before| == PIXELS
    ensures Painted(before, before, brush, brush.startX, 0)
  {
  }

  lemma PaintOne(before: seq<bv32>, after: seq<bv32>, brush: Brush, x: nat, y: nat)
    requires Painted(before, after, brush, x, y)
    requires brush.startX <= x < brush.endX <= WIDTH && y < HEIGHT
    ensures Index(x, y) < PIXELS
    ensures Painted(before, after[Index(x, y) := brush.Colour(x, y)], brush, x + 1, y)
  {
    hide HalfPixel;
    assert forall u: nat, v: nat :: u < WIDTH && Index(u, v) == Index(x, y) ==> u == x && v == y;
  }

  lemma PaintRow(before: seq<bv32>, after: seq<bv32>, brush: Brush, y: nat)
    requires Painted(before, after, brush, brush.endX, y)
    ensures Painted(before, after, brush, brush.startX, y + 1)
  {
  }

  class Core {
    var state: CoreState
    const pixels: array<bv32>

    /** `retro_init`. */
    constructor ()
      ensures Valid() && fresh(pixels) && state == BLANK && forall i :: 0 <= i < PIXELS ==> pixels[i] == 0
    {
      state := BLANK;
      pixels := new bv32[PIXELS](_ => 0);
    }

    predicate Valid() {
      pixels.Length == PIXELS
    }

    method RenderHalf(startX: nat, endX: nat, input: U16, base: bv32)
      requires Valid() && startX <= endX <= WIDTH
      modifies pixels
      ensures Painted(old(pixels[..]), pixels[..], Brush(startX, endX, state.frame, input, base), startX, HEIGHT)
    {
      ghost var before := pixels[..];
      var brush := Brush(startX, endX, state.frame, input, base);
      NothingPainted(before, brush);
      hide Painted;
      for y := 0 to HEIGHT
        invariant Painted(before, pixels[..], brush, startX, y)
      {
        RenderRow(before, brush, y);
      }
    }

    /** The inner loop, along one line of the half. */
    method RenderRow(ghost before: seq<bv32>, brush: Brush, y: nat)
      requires Valid() && brush.startX <= brush.endX <= WIDTH && y < HEIGHT && brush.frame == state.frame
      requires Painted(before, pixels[..], brush, brush.startX, y)
      modifies pixels
      ensures Painted(before, pixels[..], brush, brush.startX, y + 1)
    {
      hide Painted, Index, HalfPixel;
      for x := brush.startX to brush.endX
        invariant Painted(before, pixels[..], brush, x, y)
      {
        PaintOne(before, pixels[..], brush, x, y);
        var colour := Shaded(brush, x, y);
        ghost var painted := pixels[..];
        pixels[Index(x, y)] := colour;
        assert pixels[..] == painted[Index(x, y) := colour];
      }
      PaintRow(before, pixels[..], brush, y);
    }

    method Shaded(brush: Brush, x: nat, y: nat) returns (colour: bv32)
      requires brush.frame == state.frame
      ensures colour == brush.Colour(x, y)
    {
      hide Grid, Brighter;
      var active := if brush.input == 0 then brush.base else brush.base ^ 0x003f_3f3f;
      var grid := Grid(x, y, state.frame);
      var shade := if grid != 0 then 0x0010_1010 else 0;
      colour := Brighter(active, shade);
    }

    /** One frame: read both pads, advance, paint both halves. */
    method Run(pads: Pads)
      requires Valid()
      modifies this, pixels
      ensures state == Advance(old(state), pads) && Shows(pixels[..], state)
    {
      var input0 := ReadPad(pads, 0);
      var input1 := ReadPad(pads, 1);
      state := CoreState((state.frame + 1) % TWO_64, input0, input1);
      ghost var start := pixels[..];
      RenderHalf(0, WIDTH / 2, state.input0, HOST_BASE);
      ghost var middle := pixels[..];
      RenderHalf(WIDTH / 2, WIDTH, state.input1, GUEST_BASE);
      HalvesMakeThePicture(start, middle, pixels[..], state);
    }

    /** `retro_reset`: the state goes back, the picture stays until the next frame. */
    method Reset()
      modifies `state
      ensures state == BLANK
    {
      state := BLANK;
    }

    /** `retro_serialize` into a buffer of that size, if there is one. */
    method Serialize(size: Option<nat>) returns (saved: Option<CoreState>)
      ensures saved == if size.Some? && size.value >= STATE_BYTES then Some(state) else None
    {
      if size.None? || size.value < STATE_BYTES {
        return None;
      }
      return Some(state);
    }

    method Unserialize(saved: CoreState, size: nat) returns (restored: bool)
      modifies `state
      ensures restored <==> size == STATE_BYTES
      ensures state == if restored then saved else old(state)
    {
      if size != STATE_BYTES {
        return false;
      }
      state := saved;
      return true;
    }

    /** Runs one frame after another. */
    method RunAll(inputs: seq<Pads>)
      requires Valid()
      modifies this, pixels
      ensures state == AdvanceAll(old(state), inputs)
      ensures if inputs == [] then pixels[..] == old(pixels[..]) else Shows(pixels[..], state)
    {
      for i := 0 to |inputs|
        invariant state == AdvanceAll(old(state), inputs[..i])
        invariant if i == 0 then pixels[..] == old(pixels[..]) else Shows(pixels[..], state)
      {
        Run(inputs[i]);
        assert inputs[..i + 1][..i] == inputs[..i];
      }
      assert inputs[..|inputs|] == inputs;
    }
  }

  function Advance(state: CoreState, pads: Pads): CoreState {
    CoreState((state.frame + 1) % TWO_64, Pad(pads, 0), Pad(pads, 1))
  }

  function AdvanceAll(state: CoreState, inputs: seq<Pads>): CoreState {
    if inputs == [] then state else Advance(AdvanceAll(state, inputs[..|inputs| - 1]), inputs[|inputs| - 1])
  }

  /** A frame later: the counter is one further, and each input is what its own player presses now. */
  lemma AdvancingReadsBothPads(state: CoreState, pads: Pads, k: nat)
    ensures var next := Advance(state, pads);
            && next.frame == (if state.frame == 0xFFFF_FFFF_FFFF_FFFF then 0 else state.frame + 1)
            && (Bit(next.input0, k) <==> pads.Some? && k < 6 && pads.value(0, [0, 3, 4, 5, 6, 7][k]) != 0)
            && (Bit(next.input1, k) <==> pads.Some? && k < 6 && pads.value(1, [0, 3, 4, 5, 6, 7][k]) != 0)
  {
    ButtonsAreReadBack(pads, 0, k);
    ButtonsAreReadBack(pads, 1, k);
  }

  lemma HalvesMakeThePicture(start: seq<bv32>, middle: seq<bv32>, end: seq<bv32>, state: CoreState)
    requires Painted(start, middle, Brush(0, WIDTH / 2, state.frame, state.input0, HOST_BASE), 0, HEIGHT)
    requires Painted(middle, end, Brush(WIDTH / 2, WIDTH, state.frame, state.input1, GUEST_BASE), WIDTH / 2, HEIGHT)
    ensures Shows(end, state)
  {
    hide HalfPixel;
  }

  /**
   Save, run anything, restore and replay: the same state as running straight on, and the same
   picture as soon as one frame was replayed.
   */
  method SaveDetourRestoreReplay(core: Core, detour: seq<Pads>, replay: seq<Pads>, straight: Core)
    requires core.Valid() && straight.Valid() && core.pixels != straight.pixels && core != straight
    requires core.state == straight.state
    modifies core, core.pixels, straight, straight.pixels
    ensures core.state == straight.state == AdvanceAll(old(core.state), replay)
    ensures replay != [] ==> core.pixels[..] == straight.pixels[..]
    ensures replay == [] && detour != [] ==> Shows(core.pixels[..], AdvanceAll(old(core.state), detour))
  {
    var saved := core.Serialize(Some(STATE_BYTES));
    core.RunAll(detour);
    var _ := core.Unserialize(saved.value, STATE_BYTES);
    core.RunAll(replay);
    straight.RunAll(replay);
    if replay != [] {
      OnePicturePerState(core.pixels[..], straight.pixels[..], core.state);
    }
  }

  /** Whatever ran before, a reset core replays as a new one does, though its picture stays until a frame is run. */
  method ResetIsAFreshStart(core: Core, history: seq<Pads>, replay: seq<Pads>) returns (anew: Core)
    requires core.Valid()
    modifies core, core.pixels
    ensures fresh(anew) && fresh(anew.pixels) && anew.Valid()
    ensures core.state == anew.state == AdvanceAll(BLANK, replay)
    ensures replay != [] ==> core.pixels[..] == anew.pixels[..]
    ensures replay == [] && history != [] ==> Shows(core.pixels[..], AdvanceAll(old(core.state), history))
  {
    core.RunAll(history);
    core.Reset();
    core.RunAll(replay);
    anew := new Core();
    anew.RunAll(replay);
    if replay != [] {
      OnePicturePerState(core.pixels[..], anew.pixels[..], core.state);
    }
  }

  /** The halves do not interfere, and each shows exactly whether its player presses anything. */
  lemma HalvesShowTheirOwnInput(a: CoreState, b: CoreState, x: nat, y: nat)
    requires x < WIDTH && y < HEIGHT && a.frame == b.frame
    ensures PixelOf(a, x, y) == PixelOf(b, x, y) <==>
              (if x < WIDTH / 2 then a.input0 == 0 <==> b.input0 == 0 else a.input1 == 0 <==> b.input1 == 0)
  {
  }
}
