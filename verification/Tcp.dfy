/** A TCP connection as a value, with one function per operation of the connection
    entry. NetTcp.dfy ties the operations themselves to these functions;
    TcpProofs.dfy has what every run of them keeps. */
module Tcp {
  import opened TcpSeq

  const TCP_WND := 0x20_0000
  const WINDOW_SCALE := 128
  const MAX_SEGMENT := 65415
  const RETRANSMIT_AFTER := 250_000
  const TIME_WAIT_FOR := 60_000_000

  datatype State =
    Closed | SynSent | SynReceived | Established | FinWait1 | FinWait2 | CloseWait | Closing | LastAck | TimeWait

  datatype Octet = Syn | Byte(b: nat) | Fin

  datatype Segment = Segment(seqno: nat, syn: bool, fin: bool, data: seq<nat>, tcpLen: nat)

  datatype Stashed = Stashed(key: nat, data: seq<nat>)

  /** A connection goes on until it is destroyed, an unimplemented branch halts the
      machine, or more is outstanding than 32-bit numbers can order. */
  datatype Life = Alive | Destroyed | Halted | Overrun

  /** The sending side. The last four fields are history: the initial number, every
      octet that was given a sequence number, how many are acknowledged, and every
      segment put on the wire, in order. */
  datatype Sender = Sender(
    una: nat, nxt: nat, wnd: nat, wl1: nat, wl2: nat,
    unacked: seq<Segment>, pending: seq<Segment>,
    iss: nat, sent: seq<Octet>, acked: nat, wire: seq<Segment>)
  {
    function Queue(): seq<Segment> { unacked + pending }
  }

  /** The receiving side. The last three fields are history: the bytes handed to the
      application, whether a FIN has been taken in, and every acknowledgement number put
      on the wire, in order. */
  datatype Receiver = Receiver(
    nxt: nat, wnd: nat, lastAcked: nat, closing: bool, stash: seq<Stashed>,
    given: seq<nat>, finIn: bool, told: seq<nat>)

  /** Deadlines in microseconds, 0 for none. */
  datatype Timers = Timers(retransmit: nat, timeWait: nat, armed: bool)

  datatype Tcb = Tcb(life: Life, state: State, snd: Sender, rcv: Receiver, timers: Timers, notify: bool)

  /** A segment that arrives. */
  datatype Arrival = Arrival(seqno: nat, ackno: nat, syn: bool, ack: bool, fin: bool, rst: bool, urg: bool,
                             wnd: nat, payload: seq<nat>)
  {
    function TcpLen(): nat { |payload| + if syn || fin then 1 else 0 }
  }

  /** What an application may do with its pcb; Close is letting go of it. */
  datatype User = Send(data: seq<nat>) | Output(now: nat) | Close(now: nat) | OpenWindow | CloseWindow | Notify(on: bool)

  /** What the handler does when it is called during an Input. */
  datatype Upcalls = Upcalls(connected: seq<User>, window: seq<User>, data: seq<User>, close: seq<User>)

  datatype Event = Input(a: Arrival, now: nat, up: Upcalls) | Fire(now: nat) | App(u: User)

  // ------------------------------------------------------------------ queues

  function Bytes(data: seq<nat>): (r: seq<Octet>)
    ensures |r| == |data| && forall i | 0 <= i < |r| :: r[i] == Byte(data[i])
  {
    seq(|data|, i requires 0 <= i < |data| => Byte(data[i]))
  }

  function Octets(s: Segment): seq<Octet> {
    (if s.syn then [Syn] else []) + Bytes(s.data) + (if s.fin then [Fin] else [])
  }

  /** uint16_t tcp_len. */
  function Short(n: nat): nat {
    n % 65536
  }

  function EndOf(s: Segment): nat {
    Wrap(s.seqno + s.tcpLen)
  }

  function EnqueueSegment(s: Sender, syn: bool, fin: bool, data: seq<nat>): Sender {
    var len := |data| + if syn || fin then 1 else 0;
    var g := Segment(s.nxt, syn, fin, data, Short(len));
    s.(pending := s.pending + [g], nxt := Wrap(s.nxt + len), sent := s.sent + Octets(g))
  }

  predicate Plain(g: Segment) {
    !g.syn && !g.fin
  }

  function WithFin(g: Segment): Segment {
    g.(fin := true, tcpLen := Short(g.tcpLen + 1))
  }

  /** The FIN goes on the last pending segment if that one can take it. */
  function SendFin(s: Sender): Sender {
    var n := |s.pending|;
    if n > 0 && Plain(s.pending[n - 1]) then
      s.(pending := s.pending[..n - 1] + [WithFin(s.pending[n - 1])], nxt := Wrap(s.nxt + 1), sent := s.sent + [Fin])
    else
      EnqueueSegment(s, false, true, [])
  }

  function DropAcked(q: seq<Segment>, ackno: nat): seq<Segment> {
    if q == [] || GT(EndOf(q[0]), ackno) then q else DropAcked(q[1..], ackno)
  }

  function Clear(s: Sender, ackno: nat): Sender {
    s.(unacked := DropAcked(s.unacked, ackno), pending := DropAcked(s.pending, ackno))
  }

  function NoTimers(): Timers {
    Timers(0, 0, false)
  }

  function ClearAcked(t: Tcb, ackno: nat): Tcb {
    var s := Clear(t.snd, ackno);
    t.(snd := s, timers := if s.unacked == [] then NoTimers() else t.timers)
  }

  function TakeAck(s: Sender, ackno: nat): Sender {
    s.(una := ackno, acked := s.acked + Sub(ackno, s.una))
  }

  function TakeWindow(s: Sender, a: Arrival): Sender {
    s.(wnd := a.wnd * WINDOW_SCALE, wl1 := a.seqno, wl2 := a.ackno)
  }

  function Purge(s: Sender): Sender {
    s.(unacked := [], pending := [])
  }

  /** Purge, DisableTimers, Destroy. */
  function Kill(t: Tcb, state: State): Tcb {
    t.(state := state, snd := Purge(t.snd), timers := NoTimers(), life := Destroyed)
  }

  function Halt(t: Tcb): Tcb {
    t.(life := Halted)
  }

  // ------------------------------------------------------------------ output

  function SendWindowRemaining(s: Sender): nat {
    Sub(s.wnd, Sub(s.nxt, s.una))
  }

  /** How many segments at the front of the queue end inside the window. */
  function Fitting(q: seq<Segment>, edge: nat): (n: nat)
    ensures n <= |q| && (forall i | 0 <= i < n :: LEQ(EndOf(q[i]), edge))
    ensures n < |q| ==> !LEQ(EndOf(q[n]), edge)
  {
    if q != [] && LEQ(EndOf(q[0]), edge) then 1 + Fitting(q[1..], edge) else 0
  }

  /** The first n pending segments go out. */
  function Transmit(s: Sender, n: nat): Sender
    requires n <= |s.pending|
  {
    s.(unacked := s.unacked + s.pending[..n], pending := s.pending[n..], wire := s.wire + s.pending[..n])
  }

  function SendEmptyAck(r: Receiver): Receiver {
    r.(lastAcked := r.nxt, told := r.told + [r.nxt])
  }

  function Times(n: nat, x: nat): (r: seq<nat>)
    ensures |r| == n && forall i | 0 <= i < n :: r[i] == x
  {
    seq(n, _ => x)
  }

  /** Every segment that goes out carries an acknowledgement. */
  function SendAlong(r: Receiver, n: nat): Receiver {
    r.(lastAcked := r.nxt, told := r.told + Times(n, r.nxt))
  }

  function OutputStep(t: Tcb, now: nat): Tcb {
    var n := Fitting(t.snd.pending, Wrap(t.snd.nxt + SendWindowRemaining(t.snd)));
    if n > 0 then
      t.(rcv := SendAlong(t.rcv, n), snd := Transmit(t.snd, n),
         timers := t.timers.(retransmit := now + RETRANSMIT_AFTER))
    else if t.snd.pending != [] && t.snd.unacked == [] then Halt(t)
    else if LT(t.rcv.lastAcked, t.rcv.nxt) then t.(rcv := SendEmptyAck(t.rcv))
    else t
  }

  function SetTimer(m: Timers, now: nat): Timers {
    if m.armed || (now >= m.retransmit && now >= m.timeWait) then m else m.(armed := true)
  }

  /** Output followed by SetTimer, as every caller does. */
  function Push(t: Tcb, now: nat): Tcb {
    var o := OutputStep(t, now);
    if o.life == Alive then o.(timers := SetTimer(o.timers, now)) else o
  }

  /** Everything in flight goes back to the front of the pending queue. */
  function Retreat(s: Sender): Sender {
    s.(unacked := [], pending := s.unacked + s.pending)
  }

  function FireStep(t: Tcb, now: nat): Tcb {
    var m := t.timers.(armed := false);
    if m.timeWait != 0 && now >= m.timeWait then Kill(t, t.state)
    else if m.retransmit != 0 && now >= m.retransmit then
      Push(t.(timers := m.(retransmit := 0), snd := Retreat(t.snd)), now)
    else Push(t.(timers := m), now)
  }

  // ------------------------------------------------------------- application

  /** The application still has its pcb. */
  predicate Held(s: State) {
    s.SynSent? || s.SynReceived? || s.Established? || s.CloseWait?
  }

  /** Sequence numbers that queued segments take. */
  function Len(q: seq<Segment>): nat {
    if q == [] then 0 else q[0].tcpLen + Len(q[1..])
  }

  function CloseStep(t: Tcb): Tcb {
    match t.state
    case CloseWait => t.(snd := SendFin(t.snd), state := LastAck)
    case SynReceived | Established => t.(snd := SendFin(t.snd), state := FinWait1)
    case _ => Halt(t)
  }

  /** Sending is checked against the window and the largest segment before it. */
  function SendStep(t: Tcb, data: seq<nat>): Tcb {
    if |data| > SendWindowRemaining(t.snd) || |data| > MAX_SEGMENT then Halt(t)
    else if Len(t.snd.Queue()) + |data| + 1 >= H then t.(life := Overrun)
    else t.(snd := EnqueueSegment(t.snd, false, false, data))
  }

  function UserStep(t: Tcb, u: User): Tcb {
    if t.life != Alive || !Held(t.state) then t
    else
      match u
      case Send(data) => SendStep(t, data)
      case Output(now) => Push(t, now)
      case Close(now) => var c := CloseStep(t); if c.life == Alive then Push(c, now) else c
      case OpenWindow => t.(rcv := t.rcv.(closing := false, wnd := TCP_WND))
      case CloseWindow => t.(rcv := t.rcv.(closing := true))
      case Notify(on) => t.(notify := on)
  }

  function UserSteps(t: Tcb, us: seq<User>): Tcb
    decreases |us|
  {
    if us == [] then t else UserSteps(UserStep(t, us[0]), us[1..])
  }

  // ------------------------------------------------------------------- input

  /** An arrival while the connection waits for the answer to its SYN. */
  function AnswerToSyn(t: Tcb, a: Arrival, up: Upcalls): Tcb {
    if a.ack && (LEQ(a.ackno, t.snd.una) || GT(a.ackno, t.snd.nxt)) then
      if a.rst then t else Kill(t, Closed)
    else if a.rst then
      if a.ack then Kill(t, Closed) else t
    else if a.syn then
      var r := t.(rcv := t.rcv.(nxt := Wrap(a.seqno + 1), lastAcked := a.seqno));
      if !a.ack || a.TcpLen() > 1 then Halt(r) else UserSteps(Answered(r, a), up.connected)
    else t
  }

  /** Our SYN is acknowledged by the peer's. */
  function Answered(t: Tcb, a: Arrival): Tcb {
    ClearAcked(t.(state := Established, snd := TakeWindow(TakeAck(t.snd, a.ackno), a)), a.ackno)
  }

  /** Whether the window is taken from this arrival; una has moved already. */
  predicate WindowNews(s: Sender, a: Arrival) {
    Between(a.ackno, Wrap(s.una + 1), s.nxt)
    || LT(s.wl1, a.seqno)
    || (s.wl1 == a.seqno && LEQ(s.wl2, a.ackno))
  }

  function TakeAckAndWindow(s: Sender, a: Arrival): Sender {
    var u := TakeAck(s, a.ackno);
    if WindowNews(u, a) then TakeWindow(u, a) else u
  }

  function Acknowledge(t: Tcb, a: Arrival, up: Upcalls): Tcb {
    var c := ClearAcked(t.(snd := TakeAckAndWindow(t.snd, a)), a.ackno);
    if c.notify then UserSteps(c, up.window) else c
  }

  /** Our FIN may be acknowledged now. */
  function AfterAck(t: Tcb, a: Arrival, now: nat): Tcb {
    if t.life != Alive || a.ackno != t.snd.nxt then t
    else if t.state == FinWait1 then t.(state := FinWait2)
    else if t.state == Closing then
      t.(snd := Purge(t.snd), timers := Timers(0, now + TIME_WAIT_FOR, false), state := TimeWait)
    else t
  }

  datatype Progress = Stop(t: Tcb) | Go(t: Tcb)

  function AckPhase(t: Tcb, a: Arrival, now: nat, up: Upcalls): Progress {
    if !(GEQ(a.seqno, t.rcv.nxt) && a.ack && !a.syn && !a.rst) then Go(t)
    else if t.state == SynReceived then
      if !Between(a.ackno, Wrap(t.snd.una + 1), t.snd.nxt) then Stop(t)
      else AckConnected(t.(state := Established, snd := TakeWindow(t.snd, a)), a, now, up)
    else if t.state == LastAck then
      if a.ackno == t.snd.nxt then Stop(Kill(t, Closed)) else Go(t)
    else if t.state == TimeWait then Go(t)
    else AckConnected(t, a, now, up)
  }

  function AckConnected(t: Tcb, a: Arrival, now: nat, up: Upcalls): Progress {
    if Between(a.ackno, t.snd.una, t.snd.nxt) then Go(AfterAck(Acknowledge(t, a, up), a, now))
    else if GT(a.ackno, t.snd.nxt) then Stop(t.(rcv := SendEmptyAck(t.rcv)))
    else Go(AfterAck(t, a, now))
  }

  predicate InWindow(r: Receiver, a: Arrival) {
    (r.wnd > 0 && Between(a.seqno, r.nxt, Wrap(r.nxt + r.wnd)))
    || (a.TcpLen() == 0 && a.seqno == r.nxt)
  }

  // ------------------------------------------------------------------- stash

  /** An ordered map keeps the entry it has. */
  function Stash(s: seq<Stashed>, e: Stashed): seq<Stashed> {
    if s == [] || e.key < s[0].key then [e] + s
    else if e.key == s[0].key then s
    else [s[0]] + Stash(s[1..], e)
  }

  /** One ascending pass: what is taken from the stash after a payload that ends at
      `next`, and what stays. */
  function Drained(s: seq<Stashed>, next: nat): seq<nat> {
    if s == [] then []
    else if s[0].key == next then s[0].data + Drained(s[1..], next + |s[0].data|)
    else Drained(s[1..], next)
  }

  function Undrained(s: seq<Stashed>, next: nat): seq<Stashed> {
    if s == [] then []
    else if s[0].key == next then Undrained(s[1..], next + |s[0].data|)
    else [s[0]] + Undrained(s[1..], next)
  }

  /** When payload and drained bytes exceed the window, TrimEnd shortens the first
      buffer, which holds the payload that just arrived. */
  function Trimmed(payload: seq<nat>, drained: seq<nat>, wnd: nat): seq<nat>
    requires |drained| <= wnd || |payload| + |drained| <= wnd
  {
    if |payload| + |drained| > wnd then payload[..wnd - |drained|] + drained else payload + drained
  }

  /** An in-sequence payload, with what it makes deliverable. */
  function Coalesced(r: Receiver, payload: seq<nat>): seq<nat>
    requires |Drained(r.stash, r.nxt + |payload|)| <= r.wnd
  {
    Trimmed(payload, Drained(r.stash, r.nxt + |payload|), r.wnd)
  }

  function Take(r: Receiver, payload: seq<nat>): Receiver
    requires |Drained(r.stash, r.nxt + |payload|)| <= r.wnd
  {
    var bytes := Coalesced(r, payload);
    r.(stash := Undrained(r.stash, r.nxt + |payload|),
       nxt := Wrap(r.nxt + |bytes|),
       wnd := if r.closing then r.wnd - |bytes| else r.wnd,
       given := r.given + bytes)
  }

  function PayloadPhase(t: Tcb, a: Arrival, up: Upcalls): Progress {
    if a.payload == [] then Go(t)
    else if t.state == Established then
      if GT(a.seqno, t.rcv.nxt) then
        Stop(t.(rcv := SendEmptyAck(t.rcv.(stash := Stash(t.rcv.stash, Stashed(a.seqno, a.payload))))))
      else if |Drained(t.rcv.stash, t.rcv.nxt + |a.payload|)| > t.rcv.wnd then Stop(Halt(t))
      else Go(UserSteps(t.(rcv := Take(t.rcv, a.payload)), up.data))
    else if t.state == FinWait1 || t.state == FinWait2 then Stop(Kill(t, Closed))
    else Go(t)
  }

  /** The window was exceeded, which takes the FIN out of the length. */
  predicate Cut(t: Tcb, a: Arrival) {
    a.payload != [] && t.state == Established
    && |a.payload| + |Drained(t.rcv.stash, t.rcv.nxt + |a.payload|)| > t.rcv.wnd
  }

  function FinPhase(t: Tcb, a: Arrival, len: nat, now: nat, up: Upcalls): Tcb {
    if t.life != Alive || !a.fin then t
    else AfterFin(t.(rcv := t.rcv.(nxt := Wrap(a.seqno + len), finIn := true)), now, up)
  }

  function AfterFin(t: Tcb, now: nat, up: Upcalls): Tcb {
    match t.state
    case Established | SynReceived => UserSteps(t.(state := CloseWait), up.close)
    case FinWait1 => t.(state := Closing)
    case FinWait2 | TimeWait => t.(timers := Timers(0, now + TIME_WAIT_FOR, false), state := TimeWait)
    case _ => t
  }

  /** The payload, then the FIN. */
  function TakeIn(t: Tcb, a: Arrival, now: nat, up: Upcalls): Tcb {
    match PayloadPhase(t, a, up)
    case Stop(p) => p
    case Go(p) => FinPhase(p, a, if Cut(t, a) && a.fin then a.TcpLen() - 1 else a.TcpLen(), now, up)
  }

  function SeqPhase(t: Tcb, a: Arrival, now: nat, up: Upcalls): Tcb {
    if !InWindow(t.rcv, a) then (if t.snd.pending == [] && !a.rst then t.(rcv := SendEmptyAck(t.rcv)) else t)
    else if a.rst || a.syn then Kill(t, Closed)
    else if !a.ack then t
    else if a.urg then Halt(t)
    else TakeIn(t, a, now, up)
  }

  function Receive(t: Tcb, a: Arrival, now: nat, up: Upcalls): Tcb {
    if t.state == SynSent then AnswerToSyn(t, a, up)
    else
      match AckPhase(t, a, now, up)
      case Stop(r) => r
      case Go(r) => if r.life == Alive then SeqPhase(r, a, now, up) else r
  }

  function InputStep(t: Tcb, a: Arrival, now: nat, up: Upcalls): Tcb {
    var r := Receive(t, a, now, up);
    if r.life == Alive then Push(r, now) else r
  }

  // --------------------------------------------------------------------- runs

  function Step(t: Tcb, e: Event): Tcb {
    if t.life != Alive then t
    else
      match e
      case Input(a, now, up) => InputStep(t, a, now, up)
      case Fire(now) => FireStep(t, now)
      case App(u) => UserStep(t, u)
  }

  /** A connection whose SYN, alone or with the ACK of the peer's, is queued. */
  function Opened(state: State, iss: nat, wnd: nat, rcvNxt: nat): Tcb {
    Tcb(Alive, state,
        EnqueueSegment(Sender(iss, iss, wnd, 0, 0, [], [], iss, [], 0, []), true, false, []),
        Receiver(rcvNxt, TCP_WND, 0, false, [], [], false, []), NoTimers(), false)
  }

  function Connect(iss: nat, now: nat): Tcb {
    Push(Opened(SynSent, iss, TCP_WND, 0), now)
  }

  /** A passive open: the application is told before the answer goes out. */
  function Accept(iss: nat, a: Arrival, script: seq<User>, now: nat): Tcb {
    Accepted(Opened(SynReceived, iss, a.wnd * WINDOW_SCALE, Wrap(a.seqno + 1)), a, script, now)
  }

  function Accepted(t: Tcb, a: Arrival, script: seq<User>, now: nat): Tcb {
    var e := UserSteps(t, script);
    if e.life != Alive then e else if a.TcpLen() > 1 then Halt(e) else Push(e, now)
  }
}
