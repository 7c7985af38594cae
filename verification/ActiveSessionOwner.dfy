/** The imperative session and its ingress, method by method equal to `ActiveSession`. */
module ActiveSessionOwner {
  import opened Vocabulary
  import opened SessionStream
  import Spec = ActiveSession

  class PinnedSessionIngress {
    var stream: Stream
    var deadline: Deadline
    var activityTerminal: bool
    var goodbyeSeen: bool
    var terminal: bool

    ghost function View(): Ingress
      reads this
    {
      Ingress(Activity(stream, deadline, activityTerminal, goodbyeSeen), terminal)
    }

    constructor (network: NetworkId, peer: NodeId, id: SessionId, deadline: Deadline)
      ensures View() == Ingress(Activity(AfterHello(network, peer, id), deadline, false, false), false)
    {
      stream, this.deadline := AfterHello(network, peer, id), deadline;
      activityTerminal, goodbyeSeen, terminal := false, false, false;
    }

    /** Every frame of the chunk is checked and counted before any is handed on. */
    method FeedStream(chunk: Chunk) returns (fed: Fed)
      modifies this`stream
      ensures (stream, fed) == Feed(old(stream), chunk)
      ensures fed.Accepted? <==> Takes(old(stream), chunk)
      ensures fed.Accepted? ==> fed.frames == if chunk.Whole? then chunk.frames else []
      ensures fed.Rejected? ==> stream.poisoned
    {
      FeedPassesExactly(stream, chunk);
      if stream.poisoned { return Rejected(Poisoned); }
      if stream.closed {
        if chunk.Nothing? { return Accepted([]); }
        stream := stream.(poisoned := true);
        return Rejected(AfterGoodbye);
      }
      match chunk
      case Nothing => return Accepted([]);
      case Garbled =>
        stream := stream.(poisoned := true);
        return Rejected(Decode);
      case Whole(frames, partial) =>
        stream := stream.(pending := partial);
        ghost var start := stream;
        var i := 0;
        while i < |frames|
          invariant 0 <= i <= |frames|
          invariant Accept(start, frames) == Accept(stream, frames[i..])
        {
          var f := frames[i];
          assert frames[i..][0] == f && frames[i..][1..] == frames[i + 1..];
          var fault := FrameFault(stream, f);
          if fault.Some? {
            stream := stream.(poisoned := true);
            return Rejected(fault.value);
          }
          stream := Advance(stream, f);
          i := i + 1;
        }
        if stream.closed && stream.pending {
          stream := stream.(poisoned := true);
          return Rejected(AfterGoodbye);
        }
        fed := Accepted(frames);
    }

    method FeedVerifiedPlaintext(chunk: Chunk, now: U64) returns (r: SessionStream.Outcome<seq<Envelope>>)
      modifies this
      ensures (View().activity, r) == FeedActivity(old(View()).activity, chunk, now)
      ensures terminal == old(terminal)
    {
      if activityTerminal { return Bad(Terminal); }
      if goodbyeSeen { activityTerminal := true; return Bad(Terminal); }
      var late := CheckDeadline(deadline, now);
      if late.Some? { activityTerminal := true; return Bad(Late(late.value)); }
      var fed := FeedStream(chunk);
      if fed.Rejected? { activityTerminal := true; return Bad(OutOfScope(fed.why)); }
      if fed.frames == [] { return Good([]); }
      if exists f <- fed.frames :: f.message.Goodbye? {
        if !deadline.closing { deadline := Closing(now); }
        goodbyeSeen := true;
      } else {
        deadline := Renewed(deadline, now);
      }
      r := Good(fed.frames);
    }

    method CheckBeforeRead(now: U64, approved: bool) returns (r: Gated<()>)
      modifies this
      ensures (View(), r) == SessionStream.CheckBeforeRead(old(View()), now, approved)
    {
      if terminal { return Stopped(Dead); }
      if !approved { terminal := true; return Stopped(NotAuthorized); }
      if activityTerminal { terminal := true; return Stopped(Protocol(Terminal)); }
      var late := CheckDeadline(deadline, now);
      if late.Some? {
        activityTerminal := true;
        terminal := true;
        return Stopped(Protocol(Late(late.value)));
      }
      r := Passed(());
    }

    method ReceiveVerifiedPlaintext(chunk: Chunk, now: U64, approved: bool) returns (r: Gated<seq<Envelope>>)
      modifies this
      ensures (View(), r) == ReceivePlaintext(old(View()), chunk, now, approved)
    {
      if terminal { return Stopped(Dead); }
      if !approved { terminal := true; return Stopped(NotAuthorized); }
      var inner := FeedVerifiedPlaintext(chunk, now);
      if inner.Bad? { terminal := true; return Stopped(Protocol(inner.error)); }
      r := Passed(inner.value);
    }

    method FinishAt(now: U64, approved: bool) returns (r: Gated<()>)
      modifies this
      ensures (View(), r) == SessionStream.FinishAt(old(View()), now, approved)
    {
      if terminal { return Stopped(Dead); }
      terminal := true;
      if !approved { return Stopped(NotAuthorized); }
      if activityTerminal { return Stopped(Protocol(Terminal)); }
      activityTerminal := true;
      var late := CheckDeadline(deadline, now);
      if late.Some? { return Stopped(Protocol(Late(late.value))); }
      var (finished, fault) := Finish(stream);
      stream := finished;
      r := if fault.Some? then Stopped(Protocol(OutOfScope(fault.value))) else Passed(());
    }
  }

  class ActiveControlSession {
    const ingress: PinnedSessionIngress
    var terminal: bool
    var open: bool

    ghost function View(): Spec.Session
      reads this, ingress
    {
      Spec.Session(ingress.View(), terminal, open)
    }

    constructor (network: NetworkId, peer: NodeId, id: SessionId, now: U64)
      ensures View() == Spec.Begin(network, peer, id, now) && fresh(ingress)
    {
      ingress := new PinnedSessionIngress(network, peer, id, Deadline(false, now, SaturatingAdd(now, ACTIVE_MS)));
      terminal, open := false, true;
    }

    method Kill()
      modifies this
      ensures terminal && !open
    {
      terminal, open := true, false;
    }

    method CloseOwnedSocket()
      modifies this
      ensures View() == Spec.Close(old(View()))
    {
      Kill();
    }

    method ReceiveNextWithBudget(x: Spec.Slice) returns (r: Spec.ReadResult)
      modifies this, ingress
      ensures (View(), r) == Spec.Receive(old(View()), x)
    {
      if terminal { return Spec.Failed(Spec.IngressFailed(Dead)); }
      var expires := ingress.deadline.expires;
      if x.now >= expires {
        var last := ingress.ReceiveVerifiedPlaintext(Nothing, x.now, x.approvedBefore);
        Kill();
        return Spec.Failed(if last.Stopped? then Spec.IngressFailed(last.error) else Spec.IdleDeadlineExpired);
      }
      var checked := ingress.CheckBeforeRead(x.now, x.approvedBefore);
      if checked.Stopped? {
        Kill();
        return Spec.Failed(Spec.IngressFailed(checked.error));
      }
      var idleRemaining := (expires - x.now) * Spec.MS;
      var timeout := if x.maxWait < idleRemaining then x.maxWait else idleRemaining;
      if timeout == 0 { Kill(); return Spec.Failed(Spec.IdleDeadlineExpired); }
      if x.timeoutRefused { Kill(); return Spec.Failed(Spec.TransportFailed); }
      r := AfterRead(x, timeout, idleRemaining);
    }

    method AfterRead(x: Spec.Slice, timeout: nat, idleRemaining: nat) returns (r: Spec.ReadResult)
      modifies this, ingress
      ensures (View(), r) == Spec.AfterRead(old(View()), x, timeout, idleRemaining)
    {
      var expires := ingress.deadline.expires;
      var late := x.elapsed >= timeout;
      if (late && !x.socket.TimedOut?) || (timeout == idleRemaining && x.socket.TimedOut?) {
        var _ := ingress.ReceiveVerifiedPlaintext(Nothing, expires, x.approvedAfter);
        Kill();
        return Spec.Failed(Spec.IdleDeadlineExpired);
      }
      var observed := if late && timeout == idleRemaining then expires else Spec.Observed(x.now, x.elapsed);
      match x.socket
      case Eof =>
        Kill();
        var finished := ingress.FinishAt(observed, x.approvedAfter);
        r := if finished.Passed? then Spec.Closed else Spec.Failed(Spec.IngressFailed(finished.error));
      case Bytes(chunk) =>
        var fed := ingress.ReceiveVerifiedPlaintext(chunk, observed, x.approvedAfter);
        if fed.Stopped? { Kill(); return Spec.Failed(Spec.IngressFailed(fed.error)); }
        r := Spec.Frames(fed.value);
      case TimedOut =>
        var fed := ingress.ReceiveVerifiedPlaintext(Nothing, observed, x.approvedAfter);
        if fed.Stopped? { Kill(); return Spec.Failed(Spec.IngressFailed(fed.error)); }
        r := Spec.Idle;
      case Broken =>
        Kill();
        var _ := ingress.FinishAt(observed, x.approvedAfter);
        r := Spec.Failed(Spec.TransportFailed);
    }

    method SendUntil(approved: bool, written: bool) returns (fault: Option<Spec.SessionError>)
      modifies this
      ensures (View(), fault) == Spec.Send(old(View()), approved, written)
    {
      if terminal { return Some(Spec.IngressFailed(Dead)); }
      if !approved { Kill(); return Some(Spec.IngressFailed(NotAuthorized)); }
      if !written { Kill(); return Some(Spec.OutboundFailed); }
      fault := None;
    }
  }
}
