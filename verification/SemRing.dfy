/** The parent and its two children (parent_pgm.c, child_pgm.c): three processes that hand one shared buffer
    round by semaphores.  A process is 0 (parent), 1 (ChildOne) or 2 (ChildTwo); it waits on its own semaphore
    and posts the next one's.  Every statement that touches shared state is a step, and steps interleave freely. */
module SemRing {

  datatype Pc =
    | Start                   // parent only: reading the initial string
    | Wait                    // at sem_wait
    | Read                    // past sem_wait, about to copy the shared buffer
    | Log(copy: string)       // about to append the copy to the output file
    | Input                   // about to read a line
    | Write(text: string)     // about to print into the shared buffer
    | Writing(text: string)   // half way through
    | Post                    // at sem_post
    | Done                    // parent only: left the loop on TERMINATE
    | Exited                  // child only: a failed write or the end of its input
    | Killed                  // child only: SIGTERM

  datatype Shm = Empty | Torn | Full(text: string)

  datatype Message = Message(author: nat, text: string)

  /** written is history: the messages that were completely written to the buffer, in order. */
  datatype State = State(pcs: seq<Pc>, sems: seq<nat>, shm: Shm, log: seq<string>, written: seq<Message>)

  /** What happens next: process i runs one statement, with the line it reads and whether a call fails
      (a read of a buffer that is not whole yields any line at all);
      or the parent, done, sends SIGTERM to child i. */
  datatype Event = Run(i: nat, line: string, fail: bool) | Kill(i: nat)

  function Prefix(i: nat): string {
    if i == 0 then "Parent: " else if i == 1 then "ChildOne: " else "ChildTwo: "
  }

  function Succ(i: nat): nat { if i == 2 then 0 else i + 1 }

  predicate Shaped(s: State) { |s.pcs| == 3 && |s.sems| == 3 }

  const INITIAL := State([Start, Wait, Wait], [0, 0, 0], Empty, [], [])

  predicate Enabled(s: State, e: Event)
    requires Shaped(s)
  {
    e.i < 3 &&
    match e
    case Kill(i) => i != 0 && s.pcs[0] == Done && s.pcs[i] != Exited && s.pcs[i] != Killed
    case Run(i, _, fail) =>
      match s.pcs[i]
      case Wait => s.sems[i] > 0
      case Done => false
      case Exited => false
      case Killed => false
      case _ => i == 0 ==> !fail
  }

  function Step(s: State, e: Event): (t: State)
    requires Shaped(s) && Enabled(s, e)
    ensures Shaped(t)
  {
    var i := e.i;
    match e
    case Kill(_) => s.(pcs := s.pcs[i := Killed])
    case Run(_, line, fail) =>
      match s.pcs[i]
      case Start => s.(pcs := s.pcs[i := Write(Prefix(0) + line)])
      case Wait => s.(pcs := s.pcs[i := Read], sems := s.sems[i := s.sems[i] - 1])
      case Read => s.(pcs := s.pcs[i := Log(if s.shm.Full? then s.shm.text else line)])
      case Log(copy) =>
        if fail then s.(pcs := s.pcs[i := Exited])
        else s.(pcs := s.pcs[i := Input], log := s.log + [copy])
      case Input =>
        if fail then s.(pcs := s.pcs[i := Exited])
        else if i == 0 && line == "TERMINATE" then s.(pcs := s.pcs[i := Done])
        else s.(pcs := s.pcs[i := Write(Prefix(i) + line)])
      case Write(text) => s.(pcs := s.pcs[i := Writing(text)], shm := Torn)
      case Writing(text) =>
        s.(pcs := s.pcs[i := Post], shm := Full(text), written := s.written + [Message(i, text)])
      case Post => s.(pcs := s.pcs[i := Wait], sems := s.sems[Succ(i) := s.sems[Succ(i)] + 1])
      case _ => s
  }

  // ----- the invariant

  function Texts(ms: seq<Message>): (ts: seq<string>)
    ensures |ts| == |ms| && forall k | 0 <= k < |ms| :: ts[k] == ms[k].text
  {
    seq(|ms|, k requires 0 <= k < |ms| => ms[k].text)
  }

  /** Process i is past its wait and has not posted; the parent starts there, and a failed child stays there. */
  predicate Inside(s: State, i: nat)
    requires Shaped(s) && i < 3
  {
    s.pcs[i] != Wait && s.pcs[i] != Killed
  }

  function Tokens(s: State): nat
    requires Shaped(s)
  {
    s.sems[0] + s.sems[1] + s.sems[2]
    + (if Inside(s, 0) then 1 else 0) + (if Inside(s, 1) then 1 else 0) + (if Inside(s, 2) then 1 else 0)
  }

  /** Messages are written in turn, parent, ChildOne, ChildTwo, parent and so on, each under its author's name. */
  ghost predicate InTurn(ms: seq<Message>) {
    forall k | 0 <= k < |ms| :: ms[k].author == k % 3 && Prefix(k % 3) <= ms[k].text
  }

  ghost predicate AllLogged(s: State) { s.log == Texts(s.written) }

  /** The newest message is in the buffer, whole, and is the only one not logged. */
  ghost predicate NewestPending(s: State) {
    var n := |s.written|;
    n > 0 && s.shm == Full(s.written[n - 1].text) && s.log == Texts(s.written[..n - 1])
  }

  /** The one holder of the token is process i: inside, or about to be let in by its semaphore. */
  ghost predicate Held(s: State, i: nat)
    requires Shaped(s)
  {
    i < 3 &&
    var n := |s.written|;
    match s.pcs[i]
    case Start => i == 0 && n == 0 && AllLogged(s)
    case Wait => n % 3 == i && NewestPending(s)
    case Read => n % 3 == i && NewestPending(s)
    case Log(copy) => n % 3 == i && NewestPending(s) && copy == s.written[n - 1].text
    case Input => n % 3 == i && AllLogged(s)
    case Write(text) => n % 3 == i && AllLogged(s) && Prefix(i) <= text
    case Writing(text) => n % 3 == i && AllLogged(s) && Prefix(i) <= text && s.shm == Torn
    case Post => (n - 1) % 3 == i && NewestPending(s)
    case Done => i == 0 && n % 3 == 0 && AllLogged(s)
    case Exited => i != 0 && (AllLogged(s) || NewestPending(s))
    case Killed => false
  }

  /** Everyone but the holder waits on a semaphore at zero; children may have been killed once the parent is done. */
  ghost predicate Idle(s: State, i: nat)
    requires Shaped(s) && i < 3
  {
    s.sems[i] == 0 && (s.pcs[i] == Wait || (s.pcs[i] == Killed && s.pcs[0] == Done))
  }

  ghost predicate HolderIs(s: State, i: nat)
    requires Shaped(s)
  {
    && Held(s, i)
    && s.sems[i] == (if s.pcs[i] == Wait then 1 else 0)
    && forall j | 0 <= j < 3 && j != i :: Idle(s, j)
  }

  ghost predicate Inv(s: State) {
    Shaped(s) && InTurn(s.written) && exists i: nat :: i < 3 && HolderIs(s, i)
  }

  lemma InitialInv()
    ensures Inv(INITIAL)
  {
    assert HolderIs(INITIAL, 0);
  }

  /** The holder after process i, which holds the token, has taken a step. */
  function HolderAfter(s: State, i: nat): nat
    requires Shaped(s) && i < 3
  {
    if s.pcs[i] == Post then Succ(i) else i
  }

  lemma OnlyHolderRuns(s: State, e: Event, i: nat)
    requires Shaped(s) && Enabled(s, e) && i < 3 && HolderIs(s, i)
    ensures e.Run? ==> e.i == i
    ensures e.Kill? ==> i == 0 && s.pcs[0] == Done && s.pcs[e.i] == Wait
  {
    assert e.i != i ==> Idle(s, e.i);
    assert i != 0 ==> Idle(s, 0);
  }

  ghost predicate HeldAndCounted(s: State, i: nat)
    requires Shaped(s) && i < 3
  {
    Held(s, i) && s.sems[i] == (if s.pcs[i] == Wait then 1 else 0)
  }

  /** Steps that neither log, nor write, nor post. */
  lemma LocalStep(s: State, e: Event, i: nat)
    requires Shaped(s) && Enabled(s, e) && e.Run? && e.i == i < 3 && HeldAndCounted(s, i)
    requires !s.pcs[i].Log? && !s.pcs[i].Writing? && s.pcs[i] != Post
    ensures HeldAndCounted(Step(s, e), i)
  {
  }

  lemma TextsAppend(ms: seq<Message>, m: Message)
    ensures Texts(ms + [m]) == Texts(ms) + [m.text]
  {
  }

  lemma LogStep(s: State, e: Event, i: nat)
    requires Shaped(s) && Enabled(s, e) && e.Run? && e.i == i < 3 && HeldAndCounted(s, i)
    requires s.pcs[i].Log?
    ensures HeldAndCounted(Step(s, e), i)
  {
    var n := |s.written|;
    assert s.written[..n - 1] + [s.written[n - 1]] == s.written;
    TextsAppend(s.written[..n - 1], s.written[n - 1]);
  }

  lemma WritingStep(s: State, e: Event, i: nat)
    requires Shaped(s) && Enabled(s, e) && e.Run? && e.i == i < 3 && HeldAndCounted(s, i)
    requires s.pcs[i].Writing?
    ensures HeldAndCounted(Step(s, e), i)
  {
    var t := Step(s, e);
    assert t.written[..|s.written|] == s.written;
  }

  lemma PostStep(s: State, e: Event, i: nat)
    requires Shaped(s) && Enabled(s, e) && e.Run? && e.i == i < 3 && HolderIs(s, i)
    requires s.pcs[i] == Post
    ensures HeldAndCounted(Step(s, e), Succ(i)) && Idle(Step(s, e), i)
  {
    assert Idle(s, Succ(i));
    assert i != 0 ==> Idle(s, 0);
  }

  lemma KillStep(s: State, e: Event, i: nat)
    requires Shaped(s) && Enabled(s, e) && e.Kill? && i < 3 && HolderIs(s, i)
    ensures HolderIs(Step(s, e), 0)
  {
    OnlyHolderRuns(s, e, i);
    forall j: nat | j < 3 && j != 0 ensures Idle(Step(s, e), j) {
      assert Idle(s, j);
    }
  }

  lemma RunStep(s: State, e: Event, i: nat)
    requires Shaped(s) && Enabled(s, e) && e.Run? && e.i == i < 3 && HolderIs(s, i)
    ensures HeldAndCounted(Step(s, e), HolderAfter(s, i))
    ensures HolderAfter(s, i) != i ==> Idle(Step(s, e), i)
  {
    if s.pcs[i].Log? {
      LogStep(s, e, i);
    } else if s.pcs[i].Writing? {
      WritingStep(s, e, i);
    } else if s.pcs[i] == Post {
      PostStep(s, e, i);
    } else {
      LocalStep(s, e, i);
    }
  }

  /** A step of process i changes no one else's program counter, and no semaphore but the one it uses. */
  lemma OthersStay(s: State, e: Event, i: nat, j: nat)
    requires Shaped(s) && Enabled(s, e) && e.Run? && e.i == i < 3 && HolderIs(s, i)
    requires j < 3 && j != i && j != HolderAfter(s, i)
    ensures Idle(Step(s, e), j)
  {
    assert Idle(s, j);
  }

  /** Every step keeps the invariant. */
  lemma StepInv(s: State, e: Event)
    requires Inv(s) && Enabled(s, e)
    ensures Inv(Step(s, e))
  {
    var i: nat :| i < 3 && HolderIs(s, i);
    OnlyHolderRuns(s, e, i);
    if e.Kill? {
      KillStep(s, e, i);
    } else {
      RunStep(s, e, i);
      forall j: nat | j < 3 && j != HolderAfter(s, i) ensures Idle(Step(s, e), j) {
        if j != i {
          OthersStay(s, e, i, j);
        }
      }
      assert HolderIs(Step(s, e), HolderAfter(s, i));
    }
    TurnStep(s, e, i);
  }

  lemma TurnStep(s: State, e: Event, i: nat)
    requires Shaped(s) && Enabled(s, e) && i < 3 && HolderIs(s, i) && InTurn(s.written) && (e.Run? ==> e.i == i)
    ensures InTurn(Step(s, e).written)
  {
  }

  // ----- what holds in every reachable state

  /** The semaphores and the processes inside always add up to one token, so at most one process is inside. */
  lemma TokenConservation(s: State)
    requires Inv(s)
    ensures Tokens(s) == 1
    ensures forall i, j | 0 <= i < j < 3 :: !(Inside(s, i) && Inside(s, j))
  {
    var i: nat :| i < 3 && HolderIs(s, i);
    assert i != 0 ==> Idle(s, 0);
    assert i != 1 ==> Idle(s, 1);
    assert i != 2 ==> Idle(s, 2);
  }

  lemma LoggedOrPending(s: State)
    requires Inv(s)
    ensures InTurn(s.written) && (AllLogged(s) || NewestPending(s))
  {
    var i: nat :| i < 3 && HolderIs(s, i);
  }

  /** The log is the written messages in order, each once, and at most the newest is not there yet. */
  lemma ExactlyOnceLog(s: State)
    requires Inv(s)
    ensures s.log <= Texts(s.written) && |s.written| <= |s.log| + 1
    ensures InTurn(s.written)
  {
    hide Inv;
    LoggedOrPending(s);
    var n := |s.written|;
    if !AllLogged(s) {
      assert s.written[..n - 1] + [s.written[n - 1]] == s.written;
      TextsAppend(s.written[..n - 1], s.written[n - 1]);
    }
  }

  /** Whoever reads the buffer finds the newest message, whole and not yet logged;
      whoever writes to it overwrites a message that has been logged. */
  lemma NoTornRead(s: State, i: nat)
    requires Inv(s) && i < 3
    ensures s.pcs[i] == Read ==> NewestPending(s)
    ensures s.pcs[i].Write? || s.pcs[i].Writing? ==> AllLogged(s)
  {
    var h: nat :| h < 3 && HolderIs(s, h);
    assert i != h ==> Idle(s, i);
  }

  /** When the parent has left its loop everything written is in the log and no child is inside. */
  lemma DoneMeansLogged(s: State)
    requires Inv(s) && s.pcs[0] == Done
    ensures AllLogged(s) && !Inside(s, 1) && !Inside(s, 2)
  {
    var h: nat :| h < 3 && HolderIs(s, h);
    assert h != 0 ==> Idle(s, 0);
    assert Idle(s, 1) && Idle(s, 2);
  }

  ghost predicate Finished(s: State)
    requires Shaped(s)
  {
    s.pcs[0] == Done && s.pcs[1] == Killed && s.pcs[2] == Killed
  }

  /** Something can always happen, unless the ring has been taken down, or a child gave up while it was inside. */
  lemma ProgressIff(s: State)
    requires Inv(s)
    ensures (exists e :: Enabled(s, e)) <==> !Finished(s) && s.pcs[1] != Exited && s.pcs[2] != Exited
  {
    hide AllLogged, NewestPending, InTurn, Prefix;
    var h: nat :| h < 3 && HolderIs(s, h);
    assert h != 0 ==> Idle(s, 0);
    assert h != 1 ==> Idle(s, 1);
    assert h != 2 ==> Idle(s, 2);
    if s.pcs[h] != Exited && s.pcs[h] != Done {
      assert Enabled(s, Run(h, "", false));
    }
    assert Enabled(s, Kill(1)) <==> s.pcs[0] == Done && s.pcs[1] != Exited && s.pcs[1] != Killed;
    assert Enabled(s, Kill(2)) <==> s.pcs[0] == Done && s.pcs[2] != Exited && s.pcs[2] != Killed;
  }

  // ----- whole runs

  ghost predicate IsRun(states: seq<State>, events: seq<Event>) {
    && |states| == |events| + 1
    && states[0] == INITIAL
    && forall k | 0 <= k < |events| ::
         Shaped(states[k]) && Enabled(states[k], events[k]) && states[k + 1] == Step(states[k], events[k])
  }

  lemma {:induction false} RunInv(states: seq<State>, events: seq<Event>, k: nat)
    requires IsRun(states, events) && k < |states|
    ensures Inv(states[k])
  {
    if k == 0 {
      InitialInv();
    } else {
      RunInv(states, events, k - 1);
      StepInv(states[k - 1], events[k - 1]);
    }
  }

  /** Nothing that was written or logged is ever taken back. */
  lemma {:induction false} HistoryGrows(states: seq<State>, events: seq<Event>, j: nat, k: nat)
    requires IsRun(states, events) && j <= k < |states|
    ensures states[j].written <= states[k].written && states[j].log <= states[k].log
  {
    if j < k {
      HistoryGrows(states, events, j, k - 1);
      assert states[k] == Step(states[k - 1], events[k - 1]);
    }
  }

  /** In every run, at every moment: one token, at most one process inside, messages written in turn, and the log
      an exact copy of them up to the newest; a message once written is in the log as soon as the next one is. */
  lemma RunTheorem(states: seq<State>, events: seq<Event>, j: nat, k: nat)
    requires IsRun(states, events) && j <= k < |states|
    ensures Shaped(states[k]) && Tokens(states[k]) == 1
    ensures InTurn(states[k].written) && states[k].log <= Texts(states[k].written)
    ensures |states[j].written| < |states[k].written| ==> Texts(states[j].written) <= states[k].log
    ensures states[k].pcs[0] == Done ==> states[k].log == Texts(states[k].written)
  {
    RunInv(states, events, k);
    TokenConservation(states[k]);
    ExactlyOnceLog(states[k]);
    HistoryGrows(states, events, j, k);
    if states[k].pcs[0] == Done {
      DoneMeansLogged(states[k]);
    }
    var m := |states[j].written|;
    assert Texts(states[j].written) == Texts(states[k].written)[..m];
  }
}