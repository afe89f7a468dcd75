/** The Go event log as it runs: an object over its sequence, chain head, mirror and recorder. */
module LogService {
  import opened Wrappers
  import opened Json
  import opened RecordCodec
  import opened Ledger
  import opened EventLog
  import Sidecar

  class Service {
    const p: Params
    const configured: bool
    const recorder: Sidecar.Recorder
    var sequence: nat
    var lastHash: string
    var mirror: seq<MirrorLine>

    function Model(): Log
      reads this
    {
      Log(sequence, lastHash, mirror)
    }

    /** The recorder is a separate process, and both sides agree on its hashing. */
    ghost predicate Valid() {
      recorder.w == p.rust
    }

    /** New: the caller has checked that the mirror loads. */
    constructor (p: Params, configured: bool, recorder: Sidecar.Recorder, mirror: seq<MirrorLine>)
      requires recorder.w == p.rust && Loaded(configured, mirror).Some?
      ensures this.p == p && this.configured == configured && this.recorder == recorder && Valid()
      ensures Model() == Loaded(configured, mirror).value
    {
      this.p := p;
      this.configured := configured;
      this.recorder := recorder;
      var start := Loaded(configured, mirror).value;
      this.sequence := start.sequence;
      this.lastHash := start.lastHash;
      this.mirror := start.mirror;
    }

    /** forward: what the recorder answers, as far as the network lets it through. */
    method Forward(ev: Event, h: Hazards) returns (ack: Option<RustAck>)
      requires Valid()
      modifies recorder
      ensures (recorder.Model(), ack) == EventLog.Forward(p, old(recorder.Model()), ev, h)
    {
      if h.trip.NotSent? {
        return None;
      }
      var answer := recorder.AppendEvidence(Evidence(ev), h.disk);
      if h.trip.ReplyLost? || answer.Failure? {
        return None;
      }
      var a := answer.value;
      if a.id != Str(ev.id) || ev.id == "" {
        return None;
      }
      if a.sequence <= 0 || a.sequence != ev.sequence {
        return None;
      }
      if !IsSha256(a.hash) {
        return None;
      }
      return Some(RustAck(ev.id, a.sequence, a.hash));
    }

    /** Append: takes the next sequence number, and gives it back on every error. */
    method Append(event: Event, now: string, h: Hazards) returns (saved: Option<Event>)
      requires Valid()
      modifies this`sequence, this`lastHash, this`mirror, recorder
      ensures (Model(), recorder.Model(), saved)
           == AppendEvent(p, configured, old(Model()), old(recorder.Model()), event, now, h)
    {
      hide AppendStep, Evidence, EventLog.Forward, AppendLine, HashEvent, ValidAck;
      if event.id == "" {
        return None;
      }
      if event.kind == ACCEPTED_KIND && !configured {
        return None;
      }
      var ev := Prepare(event, now);
      PreparedKind(old(Model()), p, event, now);
      hide Prepared;
      if configured {
        ForwardBinds(p, recorder.Model(), ev, h);
        var ack := Forward(ev, h);
        if ack.None? {
          sequence := sequence - 1;
          return None;
        }
        ev := ev.(rustAck := ack);
      }
      // The check of the acknowledgement that follows in the source cannot fail: forward made it already.
      assert RequiresAck(ev) ==> ValidAck(ev);
      saved := WriteMirror(ev, h.mirror);
      if saved.None? {
        sequence := sequence - 1;
      }
    }

    /** Fills in the defaults, takes the next sequence number and chains the event. */
    method Prepare(event: Event, now: string) returns (ev: Event)
      modifies this`sequence
      ensures ev == Prepared(old(Model()), p, event, now) && sequence == old(sequence) + 1
    {
      ev := event;
      if ev.createdAt == "" {
        ev := ev.(createdAt := now);
      }
      if ev.kind == "" {
        ev := ev.(kind := "transition");
      }
      if ev.status == "" {
        ev := ev.(status := "accepted");
      }
      sequence := sequence + 1;
      ev := ev.(sequence := sequence, prevHash := lastHash);
      ev := ev.(hash := HashEvent(p, ev));
    }

    /** The mirror line; the chain head moves only when it is written. */
    method WriteMirror(ev: Event, m: MirrorWrite) returns (saved: Option<Event>)
      modifies this`lastHash, this`mirror
      ensures saved == if m.Written? then Some(ev) else None
      ensures lastHash == if m.Written? then ev.hash else old(lastHash)
      ensures mirror == match m case Written => AppendLine(old(mirror), Whole(ev))
                                case Refused => old(mirror)
                                case Torn => AppendLine(old(mirror), TornLine)
    {
      match m {
        case Refused =>
          return None;
        case Torn =>
          mirror := AppendLine(mirror, TornLine);
          return None;
        case Written =>
          mirror := AppendLine(mirror, Whole(ev));
      }
      lastHash := ev.hash;
      return Some(ev);
    }

    /** ValidateHistory: one pass with the expected sequence and previous hash. */
    method ValidateHistory(events: seq<Event>) returns (ok: bool)
      ensures ok == ValidHistory(p, events)
    {
      var prev, expected := GENESIS, 1;
      var i := 0;
      while i < |events|
        invariant 0 <= i <= |events| && expected == i + 1
        invariant ValidFrom(p, prev, expected, events[i..]) == ValidHistory(p, events)
      {
        var ev := events[i];
        assert events[i..][0] == ev && events[i..][1..] == events[i + 1..];
        if ev.sequence != expected {
          return false;
        }
        if ev.prevHash != prev {
          return false;
        }
        var computed := HashEvent(p, ev);
        if computed != ev.hash {
          return false;
        }
        if RequiresAck(ev) && !ValidAck(ev) {
          return false;
        }
        prev := ev.hash;
        expected := expected + 1;
        i := i + 1;
      }
      return true;
    }

    /** The record loop of RustAcknowledgedEvents. */
    method Acknowledge(rs: seq<Record>) returns (events: Option<seq<Event>>)
      ensures events == AcknowledgedFrom(p, GENESIS, 1, rs)
    {
      var previousRustHash := GENESIS;
      var out: seq<Event> := [];
      var i := 0;
      assert rs[0..] == rs;
      ContinuedEmpty(AcknowledgedFrom(p, GENESIS, 1, rs));
      while i < |rs|
        invariant 0 <= i <= |rs| && |out| == i
        invariant Continued(out, AcknowledgedFrom(p, previousRustHash, i + 1, rs[i..]))
               == AcknowledgedFrom(p, GENESIS, 1, rs)
      {
        var record := rs[i];
        AcknowledgeStep(p, previousRustHash, rs, i, out);
        if record.sequence != |out| + 1 || record.prevHash != previousRustHash || !IsSha256(record.hash) {
          return None;
        }
        var decoded := FromEvidence(p, record.evidence);
        if decoded.None? {
          return None;
        }
        var ev := decoded.value.(rustAck := Some(RustAck(decoded.value.id, record.sequence, record.hash)));
        if ev.sequence != record.sequence {
          return None;
        }
        if !ValidAck(ev) {
          return None;
        }
        out := out + [ev];
        previousRustHash := record.hash;
        i := i + 1;
      }
      assert out + [] == out;
      return Some(out);
    }

    /** RustAcknowledgedEvents: on success the next append continues the recorder's history. */
    method RustAcknowledgedEvents(reachable: bool) returns (events: Option<seq<Event>>)
      requires Valid()
      modifies this`sequence, this`lastHash
      ensures (Model(), events) == Refresh(p, configured, old(Model()), recorder.Model(), reachable)
      ensures recorder.Model() == old(recorder.Model())
    {
      if !configured {
        return Some([]);
      }
      if !reachable {
        return None;
      }
      var opened_ := recorder.OpenVerified();
      if opened_.Failure? {
        return None;
      }
      var records := recorder.ReadRecords();
      if records.Failure? {
        return None;
      }
      events := Acknowledge(records.value);
      if events.None? {
        return None;
      }
      var ok := ValidateHistory(events.value);
      if !ok {
        return None;
      }
      sequence := |events.value|;
      lastHash := GENESIS;
      if |events.value| > 0 {
        lastHash := events.value[|events.value| - 1].hash;
      }
    }
  }

  /** Whatever forward takes as an acknowledgement is a valid one for the event. */
  lemma {:induction false} ForwardBinds(p: Params, n: Node, ev: Event, h: Hazards)
    ensures var ack := EventLog.Forward(p, n, ev, h).1;
            ack.Some? ==> ValidAck(ev.(rustAck := ack))
  {
    hide AppendStep, Evidence;
  }

  /** The defaults do not change whether an event needs an acknowledgement, nor its position. */
  lemma {:induction false} PreparedKind(log: Log, p: Params, ev: Event, now: string)
    ensures RequiresAck(Prepared(log, p, ev, now)) <==> ev.kind == ACCEPTED_KIND
    ensures Prepared(log, p, ev, now).sequence == log.sequence + 1
  {
    assert |ACCEPTED_KIND| == 29 && |"transition"| == 10;
  }

  /** The outcome of a read that already produced some events. */
  function Continued(out: seq<Event>, rest: Option<seq<Event>>): Option<seq<Event>> {
    if rest.None? then None else Some(out + rest.value)
  }

  lemma {:induction false} ContinuedEmpty(rest: Option<seq<Event>>)
    ensures Continued([], rest) == rest
  {
    if rest.Some? {
      assert [] + rest.value == rest.value;
    }
  }

  lemma {:induction false} AcknowledgeStep(p: Params, prev: string, rs: seq<Record>, i: nat, out: seq<Event>)
    requires i < |rs|
    ensures Continued(out, AcknowledgedFrom(p, prev, i + 1, rs[i..])) ==
            var ev := Acknowledged(p, prev, i + 1, rs[i]);
            if ev.None? then None
            else Continued(out + [ev.value], AcknowledgedFrom(p, rs[i].hash, i + 2, rs[i + 1..]))
  {
    assert rs[i..][0] == rs[i] && rs[i..][1..] == rs[i + 1..];
    var ev := Acknowledged(p, prev, i + 1, rs[i]);
    var rest := AcknowledgedFrom(p, rs[i].hash, i + 2, rs[i + 1..]);
    if ev.Some? && rest.Some? {
      assert out + ([ev.value] + rest.value) == out + [ev.value] + rest.value;
    }
  }

  /** The mirror scan of load: highest sequence, last hash, and a refusal of accepted history without a recorder. */
  method Load(configured: bool, mirror: seq<MirrorLine>) returns (log: Option<Log>)
    ensures log == Loaded(configured, mirror)
  {
    var sequence, lastHash := 0, GENESIS;
    var i := 0;
    while i < |mirror|
      invariant 0 <= i <= |mirror|
      invariant Loaded(configured, mirror[..i]) == Some(Log(sequence, lastHash, mirror[..i]))
    {
      var before := mirror[..i + 1];
      assert before[..i] == mirror[..i];
      if mirror[i].Whole? {
        var ev := mirror[i].ev;
        if !configured && RequiresAck(ev) {
          NotLoaded(configured, mirror, i + 1);
          return None;
        }
        if ev.sequence > sequence {
          sequence := ev.sequence;
        }
        if ev.hash != "" {
          lastHash := ev.hash;
        }
      }
      i := i + 1;
    }
    assert mirror[..i] == mirror;
    return Some(Log(sequence, lastHash, mirror));
  }

  /** A mirror that stops loading at some line does not load at all. */
  lemma {:induction false} NotLoaded(configured: bool, mirror: seq<MirrorLine>, k: nat)
    requires k <= |mirror| && Loaded(configured, mirror[..k]).None?
    ensures Loaded(configured, mirror).None?
    decreases |mirror| - k
  {
    if k == |mirror| {
      assert mirror[..k] == mirror;
    } else {
      assert mirror[..k + 1][..k] == mirror[..k];
      NotLoaded(configured, mirror, k + 1);
    }
  }
}
