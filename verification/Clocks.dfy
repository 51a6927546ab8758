/** The hybrid logical clock of one device. */
module Clocks {
  import opened Hlcs

  const MAX_DRIFT_MS := 300_000

  /** In-memory clock state. `millis` may leave the 48-bit range; the clock then only fails. */
  datatype Clock = Clock(millis: nat, counter: Counter)

  const ZERO_CLOCK := Clock(0, 0)

  datatype Tick =
    | Ticked(clock: Clock)
    | OutOfRange(clock: Clock)
    | Drift

  /** The clock a caller finds after the call; a drift error leaves it as it was. */
  function After(c: Clock, t: Tick): Clock {
    match t
    case Ticked(d) => d
    case OutOfRange(d) => d
    case Drift => c
  }

  function CheckBounds(c: Clock): Tick {
    if c.millis > MAX_MILLIS then OutOfRange(c) else Ticked(c)
  }

  function Roll(millis: nat, counter: nat): Clock
    requires counter <= MAX_COUNTER + 1
  {
    if counter > MAX_COUNTER then Clock(millis + 1, 0) else Clock(millis, counter)
  }

  function Max(a: int, b: int): int {
    if a < b then b else a
  }

  /** Timestamp a local event; `pt` is the wall clock. */
  function Now(c: Clock, pt: int): Tick {
    if pt > c.millis then CheckBounds(Clock(pt, 0))
    else CheckBounds(Roll(c.millis, c.counter + 1))
  }

  /** Observe the timestamp of another device. */
  function Receive(c: Clock, remote: Hlc, pt: int): Tick {
    if remote.millis > pt + MAX_DRIFT_MS then Drift
    else
      var m := Max(Max(c.millis, remote.millis), pt);
      var k :=
        if m == c.millis && m == remote.millis then Max(c.counter, remote.counter) + 1
        else if m == c.millis then c.counter + 1
        else if m == remote.millis then remote.counter + 1
        else 0;
      CheckBounds(Roll(m, k))
  }

  // ---------- a packed Lamport clock ----------

  function Packed(c: Clock): nat {
    c.millis * 65536 + c.counter
  }

  function PackedHlc(h: Hlc): nat {
    h.millis * 65536 + h.counter
  }

  /** The branches of `Now`, counter overflow included, are one maximum on the packed clock. */
  lemma NowIsLamport(c: Clock, pt: int)
    ensures !Now(c, pt).Drift?
    ensures Packed(After(c, Now(c, pt))) == Max(Packed(c) + 1, pt * 65536)
    ensures Now(c, pt).Ticked? <==> Max(Packed(c) + 1, pt * 65536) < (MAX_MILLIS + 1) * 65536
  {
    var d := After(c, Now(c, pt));
    assert Packed(d) < (MAX_MILLIS + 1) * 65536 <==> d.millis <= MAX_MILLIS;
  }

  /** The branches of `Receive` likewise, except that drift rejects and changes nothing. */
  lemma ReceiveIsLamport(c: Clock, remote: Hlc, pt: int)
    ensures Receive(c, remote, pt).Drift? <==> remote.millis > pt + MAX_DRIFT_MS
    ensures Receive(c, remote, pt).Drift? ==> After(c, Receive(c, remote, pt)) == c
    ensures !Receive(c, remote, pt).Drift? ==>
      && Packed(After(c, Receive(c, remote, pt))) == Max(Max(Packed(c), PackedHlc(remote)) + 1, pt * 65536)
      && (Receive(c, remote, pt).Ticked? <==>
            Max(Max(Packed(c), PackedHlc(remote)) + 1, pt * 65536) < (MAX_MILLIS + 1) * 65536)
  {
    if !Receive(c, remote, pt).Drift? {
      var d := After(c, Receive(c, remote, pt));
      assert Packed(d) < (MAX_MILLIS + 1) * 65536 <==> d.millis <= MAX_MILLIS;
    }
  }

  // ---------- runs ----------

  datatype Event = Send(pt: int) | Observe(remote: Hlc, pt: int)

  function Apply(c: Clock, e: Event): Tick {
    match e
    case Send(pt) => Now(c, pt)
    case Observe(remote, pt) => Receive(c, remote, pt)
  }

  function Run(c: Clock, es: seq<Event>): Clock {
    if es == [] then c
    else
      var before := Run(c, es[..|es| - 1]);
      After(before, Apply(before, es[|es| - 1]))
  }

  function RunMax(r: nat, p: nat): nat {
    Max(r, (p + MAX_DRIFT_MS) * 65536 + 65535)
  }

  /** However wrong other devices' clocks are, a clock stays within the drift allowance of the
      wall clock, plus one step per event. */
  lemma {:induction false} DriftBound(c: Clock, es: seq<Event>, p: nat)
    requires forall e <- es :: e.pt <= p
    ensures Packed(c) <= Packed(Run(c, es)) <= RunMax(Packed(c), p) + |es|
  {
    if es != [] {
      var n := |es| - 1;
      DriftBound(c, es[..n], p);
      var before := Run(c, es[..n]);
      match es[n]
      case Send(pt) => NowIsLamport(before, pt);
      case Observe(remote, pt) => ReceiveIsLamport(before, remote, pt);
    }
  }

  /** Every timestamp a run sends is above everything it sent or accepted before. */
  lemma {:induction false} SendsAreCausal(c: Clock, es: seq<Event>, i: nat, j: nat)
    requires i < j < |es| && es[j].Send?
    requires es[i].Observe? ==> !Apply(Run(c, es[..i]), es[i]).Drift?
    ensures Packed(Run(c, es[..i + 1])) < Packed(Run(c, es[..j + 1]))
    ensures es[i].Observe? ==> PackedHlc(es[i].remote) < Packed(Run(c, es[..j + 1]))
    decreases j
  {
    RunStep(c, es, i);
    RunStep(c, es, j);
    var before := Run(c, es[..j]);
    NowIsLamport(before, es[j].pt);
    match es[i] {
      case Send(pt) => NowIsLamport(Run(c, es[..i]), pt);
      case Observe(remote, pt) => ReceiveIsLamport(Run(c, es[..i]), remote, pt);
    }
    RunGrows(c, es, i + 1, j);
  }

  lemma RunStep(c: Clock, es: seq<Event>, i: nat)
    requires i < |es|
    ensures Run(c, es[..i + 1]) == After(Run(c, es[..i]), Apply(Run(c, es[..i]), es[i]))
  {
    assert es[..i + 1][..i] == es[..i];
  }

  lemma StepGrows(c: Clock, e: Event)
    ensures Packed(c) <= Packed(After(c, Apply(c, e)))
  {
    match e
    case Send(pt) => NowIsLamport(c, pt);
    case Observe(remote, pt) => ReceiveIsLamport(c, remote, pt);
  }

  lemma {:induction false} RunGrows(c: Clock, es: seq<Event>, i: nat, j: nat)
    requires i <= j <= |es|
    ensures Packed(Run(c, es[..i])) <= Packed(Run(c, es[..j]))
  {
    hide Run, Packed, After, Apply;
    if i < j {
      RunGrows(c, es, i, j - 1);
      RunStep(c, es, j - 1);
      StepGrows(Run(c, es[..j - 1]), es[j - 1]);
    }
  }

  // ---------- the clock object ----------

  class HybridLogicalClock {
    var millis: nat
    var counter: Counter
    const device: Device

    function State(): Clock
      reads this
    {
      Clock(millis, counter)
    }

    /** `saved` is the state to restore. */
    constructor (device: Device, saved: Clock)
      ensures this.device == device && State() == saved
    {
      this.device := device;
      this.millis := saved.millis;
      this.counter := saved.counter;
    }

    /** A timestamp for a new local operation, or a range error. */
    method Issue(pt: int) returns (t: Tick)
      modifies this
      ensures t == Now(old(State()), pt)
      ensures State() == After(old(State()), t)
    {
      if pt > millis {
        millis, counter := pt, 0;
      } else {
        var bumped := counter + 1;
        if bumped > MAX_COUNTER {
          millis, counter := millis + 1, 0;
        } else {
          counter := bumped;
        }
      }
      t := CheckBounds(State());
    }

    method Witness(remote: Hlc, pt: int) returns (t: Tick)
      modifies this
      ensures t == Receive(old(State()), remote, pt)
      ensures State() == After(old(State()), t)
    {
      if remote.millis > pt + MAX_DRIFT_MS {
        return Drift;
      }
      var m := Max(Max(millis, remote.millis), pt);
      var c: nat;
      if m == millis && m == remote.millis {
        c := Max(counter, remote.counter) + 1;
      } else if m == millis {
        c := counter + 1;
      } else if m == remote.millis {
        c := remote.counter + 1;
      } else {
        c := 0;
      }
      if c > MAX_COUNTER {
        millis, counter := m + 1, 0;
      } else {
        millis, counter := m, c;
      }
      t := CheckBounds(State());
    }
  }
}
