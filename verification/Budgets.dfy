/** Fitting serving profiles into memory: searches for the most slots and the longest context. */
module Budgets {
  import opened Basics

  datatype Family = Qwen | Muse

  const GIB: nat := 0x4000_0000
  const STEP: nat := 32768
  const UBATCH: nat := 256

  /** Sizes are counted in 32nds of a byte: a q4_0 value takes 18 of them. */
  const Q4: nat := 18

  const QWEN_BYTES: nat := 17559178144
  const MUSE_BYTES: nat := 15878222368
  const DRAFT_BYTES: nat := 1631205312

  /** The budget of 32 GiB less the reserve of 3.5 GiB. */
  const USABLE: nat := (57 * GIB / 2) * 32

  function Weights(f: Family): nat {
    match f
    case Qwen => QWEN_BYTES * 32
    case Muse => (MUSE_BYTES + DRAFT_BYTES) * 32
  }

  /** The attention cache of one slot. */
  function PerSlot(f: Family, context: nat): nat {
    match f
    case Qwen => context * (17 * 4 * 512 * Q4)
    case Muse =>
      context * (13 * 2 * 256 * Q4) + (2048 + UBATCH) * (39 * 2 * 256 * Q4) + (2048 + UBATCH) * (5 * 8 * 256 * Q4)
  }

  /** The test of both searches: weights, reserve and cache within the budget. */
  predicate Fits(f: Family, context: nat, slots: nat) {
    Weights(f) + slots * PerSlot(f, context) <= USABLE
  }

  /** In bytes: what the weights and the reserve leave, and what one slot takes of it at a context. */
  lemma {:induction false} FitsInBytes(context: nat, slots: nat)
    ensures Fits(Qwen, context, slots) <==> slots * (context * 19584) <= 13042463840
    ensures Fits(Muse, context, slots) <==> slots * (context * 3744 + 39149568) <= 13092214304
  {
    assert PerSlot(Qwen, context) == (context * 19584) * 32;
    assert PerSlot(Muse, context) == (context * 3744 + 39149568) * 32;
    Scaled(slots, context * 19584, 32);
    Scaled(slots, context * 3744 + 39149568, 32);
  }

  lemma {:induction false} Scaled(a: nat, b: nat, c: nat)
    ensures a * (b * c) == (a * b) * c
  {
  }

  /** At 128 Ki tokens a slot: five slots for Qwen, as its saved profile has, and twenty-four for Muse. */
  lemma {:induction false} SlotsAtNativeContext()
    ensures forall n: nat :: Fits(Qwen, 131072, n) <==> n <= 5
    ensures forall n: nat :: Fits(Muse, 131072, n) <==> n <= 24
  {
    forall n: nat ensures Fits(Qwen, 131072, n) <==> n <= 5 { FitsInBytes(131072, n); }
    forall n: nat ensures Fits(Muse, 131072, n) <==> n <= 24 { FitsInBytes(131072, n); }
  }

  lemma {:induction false} ProductGrows(a: nat, b: nat, unit: nat)
    requires a <= b
    ensures a * unit <= b * unit
    ensures unit > 0 && a < b ==> a * unit < b * unit
  {
    var d := b - a;
    assert b * unit == a * unit + d * unit;
    if unit > 0 && d > 0 { assert d * unit >= 1 * unit; }
  }

  lemma {:induction false} FewerSlotsFit(f: Family, context: nat, slots: nat, fewer: nat)
    requires Fits(f, context, slots) && fewer <= slots
    ensures Fits(f, context, fewer)
  {
    ProductGrows(fewer, slots, PerSlot(f, context));
  }

  lemma {:induction false} ShorterFits(f: Family, context: nat, shorter: nat, slots: nat)
    requires Fits(f, context, slots) && shorter <= context
    ensures Fits(f, shorter, slots)
  {
    var a, b := PerSlot(f, shorter), PerSlot(f, context);
    assert a <= b;
    assert slots * a <= slots * b by { ProductGrows(a, b, slots); }
  }

  /** `max_slots`: the greatest slot count that fits; None where one slot does not. */
  method MaxSlots(f: Family, context: nat) returns (best: Option<nat>)
    requires PerSlot(f, context) > 0
    ensures best.None? <==> !Fits(f, context, 1)
    ensures best.Some? ==> best.value >= 1 && forall n: nat :: Fits(f, context, n) <==> n <= best.value
  {
    var slots := 1;
    var unit := PerSlot(f, context);
    while Fits(f, context, slots + 1)
      invariant slots >= 1 && (slots > 1 ==> Fits(f, context, slots))
      decreases USABLE - slots * unit
    {
      assert (slots + 1) * unit == slots * unit + unit;
      slots := slots + 1;
    }
    if !Fits(f, context, slots) { return None; }
    forall n: nat ensures Fits(f, context, n) <==> n <= slots {
      if n <= slots { FewerSlotsFit(f, context, slots, n); }
      else if Fits(f, context, n) { FewerSlotsFit(f, context, n, slots + 1); }
    }
    FewerSlotsFit(f, context, slots, 1);
    best := Some(slots);
  }

  /** A cache that costs nothing fits in any number: for Qwen at context 0 the search has no end. */
  lemma {:induction false} FreeCacheNeverFills(f: Family, context: nat)
    ensures (forall n: nat :: Fits(f, context, n)) <==> PerSlot(f, context) == 0
    ensures PerSlot(f, context) == 0 <==> f == Qwen && context == 0
  {
    if PerSlot(f, context) > 0 {
      ProductGrows(1, PerSlot(f, context), USABLE + 1);
      assert !Fits(f, context, USABLE + 1);
    }
    if f == Qwen && context == 0 {
      forall n: nat ensures Fits(f, context, n) { assert n * PerSlot(f, context) == 0; }
    }
  }

  /** `max_context`: the longest fitting multiple of the step, and one step even where that does not fit. */
  method MaxContext(f: Family, slots: nat) returns (context: nat)
    requires slots >= 1
    ensures context >= STEP && context % STEP == 0
    ensures !Fits(f, context + STEP, slots)
    ensures Fits(f, STEP, slots) <==> Fits(f, context, slots)
    ensures Fits(f, STEP, slots) ==> forall k: nat :: Fits(f, k * STEP, slots) <==> k * STEP <= context
    ensures !Fits(f, STEP, slots) ==> context == STEP
  {
    context := STEP;
    while Fits(f, context + STEP, slots)
      invariant context >= STEP && context % STEP == 0
      invariant context > STEP ==> Fits(f, context, slots)
      decreases USABLE - context
    {
      ContextCosts(f, context + STEP, slots);
      context := context + STEP;
    }
    if Fits(f, context, slots) { ShorterFits(f, context, STEP, slots); }
    if Fits(f, STEP, slots) {
      forall k: nat ensures Fits(f, k * STEP, slots) <==> k * STEP <= context {
        Multiples(context, k);
        if k * STEP <= context { ShorterFits(f, context, k * STEP, slots); }
        else if Fits(f, k * STEP, slots) { ShorterFits(f, k * STEP, context + STEP, slots); }
      }
    }
  }

  /** Without slots no context costs anything: `max_context` has no end exactly then. */
  lemma {:induction false} NoSlotsNeverFill(f: Family, slots: nat)
    ensures (forall k: nat :: Fits(f, k * STEP, slots)) <==> slots == 0
  {
    if slots == 0 {
      forall k: nat ensures Fits(f, k * STEP, slots) { assert slots * PerSlot(f, k * STEP) == 0; }
    } else {
      var k := USABLE + 1;
      ProductGrows(1, STEP, k);
      if Fits(f, k * STEP, slots) { ContextCosts(f, k * STEP, slots); }
    }
  }

  lemma {:induction false} ContextCosts(f: Family, context: nat, slots: nat)
    requires slots >= 1 && Fits(f, context, slots)
    ensures context <= USABLE
  {
    ProductGrows(1, slots, PerSlot(f, context));
  }

  /** Two multiples of the step that are not in order are a whole step apart. */
  lemma {:induction false} Multiples(context: nat, k: nat)
    requires context % STEP == 0
    ensures k * STEP <= context || k * STEP >= context + STEP
  {
    var m := context / STEP;
    assert context == m * STEP;
    if k <= m { assert k * STEP <= context; } else { assert k * STEP >= (m + 1) * STEP; }
  }
}
