/**
 `LimitDatagram`: datagrams sent and received under the grants of two sessions.  Both calls are futures; each poll of
 them is one method call here, and limits may be changed and calls dropped between any two polls.
 */
module LimitDatagrams {
  import opened Common
  import opened RateChain
  import opened RateRuns
  import opened SpeedLimiters
  import opened DatagramRuns
  import opened DatagramPolls

  /** Where the pending call is suspended: at the session, with its future, or at the inner call. */
  datatype Await = NoCall | AtSession(future: Future) | AtInner(grant: nat)

  /** One direction of a limited datagram socket: a session, the state of its current grant, and the pending call. */
  class Quota {
    const session: SpeedLimitSession
    var state: State
    var pending: Await
    ghost var total: nat
    ghost var passed: nat
    ghost var forfeited: nat
    ghost var closed: nat
    ghost var fitted: nat

    ghost predicate Valid()
      reads this, session.Repr
    {
      session.Linked() && WellStaged(View())
    }

    ghost function View(): Socket
      requires session.Linked()
      reads this, session.Repr
    {
      Socket(Account(Session(session.View(), if pending.AtSession? then pending.future else Start, total),
                     state, passed, forfeited, closed, fitted),
             if pending.NoCall? then Quiet else if pending.AtSession? then Granting else Inner(pending.grant))
    }

    constructor (session: SpeedLimitSession)
      requires session.Linked()
      ensures Valid() && this.session == session
      ensures View() == Socket(Account(Session(session.View(), Start, 0), Idle, 0, 0, 0, 0), Quiet)
    {
      this.session := session;
      this.state := Idle;
      this.pending := NoCall;
      this.total, this.passed, this.forfeited, this.closed, this.fitted := 0, 0, 0, 0, 0;
    }

    /** One poll of the pending call, or the first poll of a new one. */
    method PollTransfer(ready: seq<bool>, inner: InnerReply) returns (answer: Answer)
      requires Valid() && |ready| == session.depth
      modifies this, session.Repr
      ensures Valid() && (View(), answer) == PollCall(old(View()), old(session.Gates(ready)), inner)
    {
      match pending {
        case AtInner(grant) =>
          answer := PollInner(grant, inner);
        case AtSession(f) =>
          answer := PollGrant(f, ready, inner);
        case NoCall =>
          match state {
            case Idle => answer := PollGrant(Start, ready, inner);
            case Open(_, _) => answer := PollInner(0, inner);
          }
      }
    }

    /** Polls the session and, with a grant, the inner call. */
    method PollGrant(f: Future, ready: seq<bool>, inner: InnerReply) returns (answer: Answer)
      requires Valid() && |ready| == session.depth && state.Idle?
      requires pending == if f == Start then NoCall else AtSession(f)
      modifies this, session.Repr
      ensures Valid() && (View(), answer) == PollCall(old(View()), old(session.Gates(ready)), inner)
    {
      var p := TakeGrant(f, ready, inner);
      if p.Pending? {
        answer := Suspended;
      } else {
        answer := PollInner(p.granted, inner);
      }
    }

    /** Polls the session; with a grant, what is left of the poll is that of the inner call. */
    method TakeGrant(f: Future, ready: seq<bool>, ghost inner: InnerReply) returns (p: Polled)
      requires Valid() && |ready| == session.depth && state.Idle?
      requires pending == if f == Start then NoCall else AtSession(f)
      modifies session.Repr, this`total, this`pending
      ensures session.Linked() && WellStaged(PollCall(old(View()), old(session.Gates(ready)), inner).0)
      ensures PollCall(old(View()), old(session.Gates(ready)), inner)
           == if p.Pending? then (View(), Suspended) else DatagramPolls.PollInner(View().account, p.granted, inner)
      ensures p.Ready? ==> pending == NoCall
    {
      ghost var s, gates := View(), session.Gates(ready);
      p := PollSession(f, ready);
      ghost var t := Session(session.View(), if p.Pending? then p.future else Start, total);
      PollCallAfter(s, gates, inner, t);
      Suspend(p, s.account, t);
    }

    /** Keeps the future of the session while it waits. */
    method Suspend(p: Polled, ghost a: Account, ghost t: Session)
      requires session.Linked() && t == Session(session.View(), if p.Pending? then p.future else Start, total)
      requires a.(session := t) == Account(t, state, passed, forfeited, closed, fitted)
      modifies this`pending
      ensures View() == Socket(a.(session := t), if p.Pending? then Granting else Quiet)
      ensures pending == if p.Pending? then AtSession(p.future) else NoCall
    {
      pending := if p.Pending? then AtSession(p.future) else NoCall;
    }

    /** One poll of the session, with the total kept. */
    method PollSession(f: Future, ready: seq<bool>) returns (p: Polled)
      requires session.Linked() && |ready| == session.depth && Fits(session.View(), f)
      modifies session.Repr, this`total
      ensures Session(session.View(), if p.Pending? then p.future else Start, total)
           == Step(Session(old(session.View()), f, old(total)), PollEvent(old(session.Gates(ready))))
      ensures p.Pending? ==> p.future != Start && Fits(session.View(), p.future)
      ensures p.Ready? ==> p.granted == total - old(total) > 0
    {
      ghost var s, gates := Session(session.View(), f, total), session.Gates(ready);
      p := session.PollUntilReady(f, ready);
      StepIsPoll(s, gates, session.View(), p);
      if p.Ready? {
        total := total + p.granted;
      }
    }

    /** Polls the inner call. */
    method PollInner(grant: nat, inner: InnerReply) returns (answer: Answer)
      requires session.Linked() && !pending.AtSession? && (state.Open? ==> grant == 0)
      modifies this
      ensures session.Linked() && !pending.AtSession? && (state.Open? && !pending.NoCall? ==> pending == AtInner(0))
      ensures (View(), answer) == DatagramPolls.PollInner(old(View().account), grant, inner)
    {
      match inner {
        case InnerWaits =>
          pending := AtInner(grant);
          answer := Suspended;
        case InnerFails =>
          forfeited := forfeited + grant;
          pending := NoCall;
          answer := Errored;
        case InnerPasses(size) =>
          Charge(grant, size);
          pending := NoCall;
          answer := Transferred(size);
      }
    }

    /** The state after a datagram passed. */
    method Charge(grant: nat, size: nat)
      requires session.Linked()
      modifies this`state, this`passed, this`closed, this`fitted
      ensures View().account == Pass(old(View().account), old(state), grant, size) && View().stage == old(View().stage)
    {
      ghost var before := state;
      match state {
        case Idle =>
          state := if size > grant then Idle else Open(grant, size);
        case Open(g, done) =>
          state := if done + size >= g then Idle else Open(g, done + size);
      }
      passed := passed + size;
      closed := closed + if state.Idle? then 1 else 0;
      fitted := fitted + if state.Idle? && Spent(before) then 1 else 0;
    }

    /** Drops the pending call; a grant it has taken is lost. */
    method Drop()
      requires Valid()
      modifies this
      ensures Valid() && View() == DropCall(old(View()))
    {
      forfeited := forfeited + if pending.AtInner? then pending.grant else 0;
      pending := NoCall;
    }
  }

  /** What the inner socket is able to do when it is to send. */
  datatype SendReply = NotSent | SendFails | Sent(count: nat)

  /** What the inner socket is able to do when it is to receive. */
  datatype RecvReply = NothingYet | RecvFails | Received(datagram: seq<byte>)

  class LimitDatagram {
    const read: Quota
    const write: Quota
    /** The buffer of the pending `send_to`. */
    var sending: seq<byte>
    /** The datagrams that the inner socket has sent. */
    ghost var sent: seq<seq<byte>>

    constructor (readLimit: SpeedLimitSession, writeLimit: SpeedLimitSession)
      requires readLimit.Linked() && writeLimit.Linked()
      ensures fresh(read) && fresh(write) && read.session == readLimit && write.session == writeLimit && sent == []
      ensures read.Valid() && write.Valid()
      ensures read.View() == Socket(Account(Session(readLimit.View(), Start, 0), Idle, 0, 0, 0, 0), Quiet)
      ensures write.View() == Socket(Account(Session(writeLimit.View(), Start, 0), Idle, 0, 0, 0, 0), Quiet)
    {
      var r := new Quota(readLimit);
      var w := new Quota(writeLimit);
      read, write := r, w;
      sending, sent := [], [];
    }

    /**
     One poll of `send_to(buf)`, or of the pending call, which keeps the buffer it was begun with: the whole datagram is
     charged and reported, whatever count the inner socket tells.
     */
    method PollSend(buf: seq<byte>, ready: seq<bool>, reply: SendReply) returns (answer: Answer)
      requires write.Valid() && |ready| == write.session.depth
      modifies this`sending, this`sent, write, write.session.Repr
      ensures write.Valid() && sending == if old(write.pending.NoCall?) then buf else old(sending)
      ensures (write.View(), answer)
           == PollCall(old(write.View()), old(write.session.Gates(ready)), Sending(sending, reply))
      ensures answer.Transferred? ==> reply.Sent? && answer.len == |sending| && sent == old(sent) + [sending]
      ensures !answer.Transferred? ==> sent == old(sent)
      ensures answer == if !old(InnerIsPolled(write.View(), write.session.Gates(ready))) || reply.NotSent?
                        then Suspended else if reply.SendFails? then Errored else Transferred(|sending|)
    {
      if write.pending.NoCall? {
        sending := buf;
      }
      answer := PollPending(ready, reply);
    }

    /** The poll, once the buffer is kept. */
    method PollPending(ready: seq<bool>, reply: SendReply) returns (answer: Answer)
      requires write.Valid() && |ready| == write.session.depth
      modifies this`sent, write, write.session.Repr
      ensures write.Valid()
      ensures (write.View(), answer)
           == PollCall(old(write.View()), old(write.session.Gates(ready)), Sending(sending, reply))
      ensures answer.Transferred? ==> reply.Sent? && answer.len == |sending| && sent == old(sent) + [sending]
      ensures !answer.Transferred? ==> sent == old(sent)
      ensures answer == if !old(InnerIsPolled(write.View(), write.session.Gates(ready))) || reply.NotSent?
                        then Suspended else if reply.SendFails? then Errored else Transferred(|sending|)
    {
      ReplyIsPassedOn(write.View(), write.session.Gates(ready), Sending(sending, reply));
      answer := write.PollTransfer(ready, Sending(sending, reply));
      if answer.Transferred? {
        sent := sent + [sending];
      }
    }

    /** One poll of `recv_from(buf)`: the datagram, which the inner socket cuts to the buffer, is put at its front. */
    method PollRecv(buf: array<byte>, ready: seq<bool>, reply: RecvReply) returns (answer: Answer)
      requires read.Valid() && |ready| == read.session.depth
      requires reply.Received? ==> |reply.datagram| <= buf.Length
      modifies read, read.session.Repr, buf
      ensures read.Valid()
      ensures (read.View(), answer) == PollCall(old(read.View()), old(read.session.Gates(ready)), Receiving(reply))
      ensures answer.Transferred? ==> reply.Received? && answer.len == |reply.datagram|
                                      && buf[..] == reply.datagram + old(buf[..])[answer.len..]
      ensures !answer.Transferred? ==> buf[..] == old(buf[..])
      ensures answer == if !old(InnerIsPolled(read.View(), read.session.Gates(ready))) || reply.NothingYet?
                        then Suspended else if reply.RecvFails? then Errored else Transferred(|reply.datagram|)
    {
      ReplyIsPassedOn(read.View(), read.session.Gates(ready), Receiving(reply));
      answer := read.PollTransfer(ready, Receiving(reply));
      if answer.Transferred? {
        CopyDatagram(buf, reply.datagram);
      }
    }

    /** Drops the pending `send_to`. */
    method DropSend()
      requires write.Valid()
      modifies write
      ensures write.Valid() && write.View() == DropCall(old(write.View()))
    {
      write.Drop();
    }

    /** Drops the pending `recv_from`. */
    method DropRecv()
      requires read.Valid()
      modifies read
      ensures read.Valid() && read.View() == DropCall(old(read.View()))
    {
      read.Drop();
    }
  }

  function Sending(buf: seq<byte>, reply: SendReply): InnerReply {
    match reply
    case NotSent => InnerWaits
    case SendFails => InnerFails
    case Sent(_) => InnerPasses(|buf|)
  }

  function Receiving(reply: RecvReply): InnerReply {
    match reply
    case NothingYet => InnerWaits
    case RecvFails => InnerFails
    case Received(datagram) => InnerPasses(|datagram|)
  }

  /** What the inner socket does to the caller's buffer. */
  method CopyDatagram(buf: array<byte>, datagram: seq<byte>)
    requires |datagram| <= buf.Length
    modifies buf
    ensures buf[..] == datagram + old(buf[..])[|datagram|..]
  {
    forall i | 0 <= i < |datagram| {
      buf[i] := datagram[i];
    }
  }
}
