/** What the ring passes on: every line that a process reads leaves under that process's name, and nothing else does. */
module SemLines {
  import opened SemRing

  function Name(i: nat): string {
    match i
    case 0 => "Parent: "
    case 1 => "ChildOne: "
    case _ => "ChildTwo: "
  }

  /** The message that a step commits its process to: the parent's first line, or a line that is read in turn,
      unless the read fails or the parent reads the word that ends the loop. */
  function Said(s: State, e: Event): seq<Message>
    requires Shaped(s) && e.i < 3
  {
    match e
    case Kill(_) => []
    case Run(i, line, fail) =>
      if s.pcs[i] == Start then [Message(0, "Parent: " + line)]
      else if s.pcs[i] == Input && !fail && !(i == 0 && line == "TERMINATE") then [Message(i, Name(i) + line)]
      else []
  }

  /** Everything said in the first k steps of a run. */
  ghost function Authored(states: seq<State>, events: seq<Event>, k: nat): seq<Message>
    requires IsRun(states, events) && k <= |events|
  {
    if k == 0 then [] else Authored(states, events, k - 1) + Said(states[k - 1], events[k - 1])
  }

  /** The message that a process is about to print, or printing. */
  function InHand(pc: Pc, i: nat): seq<Message> {
    match pc
    case Write(text) => [Message(i, text)]
    case Writing(text) => [Message(i, text)]
    case _ => []
  }

  function Unwritten(s: State): seq<Message>
    requires Shaped(s)
  {
    InHand(s.pcs[0], 0) + InHand(s.pcs[1], 1) + InHand(s.pcs[2], 2)
  }

  lemma HolderHasAll(s: State, i: nat)
    requires Shaped(s) && i < 3 && HolderIs(s, i)
    ensures Unwritten(s) == InHand(s.pcs[i], i)
  {
    hide Held;
    forall j: nat | j < 3 && j != i ensures InHand(s.pcs[j], j) == [] {
      assert Idle(s, j);
    }
  }

  lemma OneStep(s: State, e: Event, i: nat)
    requires Shaped(s) && Enabled(s, e) && e.Run? && e.i == i < 3 && (s.pcs[i] == Start ==> i == 0)
    ensures Step(s, e).written + InHand(Step(s, e).pcs[i], i) == s.written + InHand(s.pcs[i], i) + Said(s, e)
  {
  }

  lemma StartIsParent(s: State, i: nat)
    requires Shaped(s) && i < 3 && HolderIs(s, i)
    ensures s.pcs[i] == Start ==> i == 0
    ensures s.pcs[i] == Post ==> forall line, fail :: Enabled(s, Run(i, line, fail)) ==>
              InHand(Step(s, Run(i, line, fail)).pcs[i], i) == [] && InHand(s.pcs[Succ(i)], Succ(i)) == []
  {
    assert Idle(s, Succ(i));
  }

  lemma StepSays(s: State, e: Event)
    requires Inv(s) && Enabled(s, e)
    ensures Shaped(Step(s, e))
    ensures Step(s, e).written + Unwritten(Step(s, e)) == s.written + Unwritten(s) + Said(s, e)
  {
    hide Held;
    var i: nat :| i < 3 && HolderIs(s, i);
    OnlyHolderRuns(s, e, i);
    HolderHasAll(s, i);
    StartIsParent(s, i);
    if e.Run? {
      OneStep(s, e, i);
      OthersSilent(s, e, i);
    } else {
      KilledSilent(s, e, i);
    }
  }

  lemma OthersSilent(s: State, e: Event, i: nat)
    requires Shaped(s) && Enabled(s, e) && e.Run? && e.i == i < 3 && HolderIs(s, i)
    ensures Unwritten(Step(s, e)) == InHand(Step(s, e).pcs[i], i)
  {
    forall j: nat | j < 3 && j != i ensures Step(s, e).pcs[j] == s.pcs[j] && InHand(s.pcs[j], j) == [] {
      assert Idle(s, j);
    }
  }

  lemma KilledSilent(s: State, e: Event, i: nat)
    requires Shaped(s) && Enabled(s, e) && e.Kill? && i < 3 && HolderIs(s, i)
    ensures Step(s, e).written == s.written && Unwritten(Step(s, e)) == Unwritten(s)
  {
    OnlyHolderRuns(s, e, i);
  }

  /** At every moment of every run, what has been said, in order, is what has been written to the buffer and at most
      one message more, which its author still has in hand. */
  lemma {:induction false} LinesWritten(states: seq<State>, events: seq<Event>, k: nat)
    requires IsRun(states, events) && k <= |events|
    ensures Shaped(states[k]) && |Unwritten(states[k])| <= 1
    ensures Authored(states, events, k) == states[k].written + Unwritten(states[k])
  {
    hide Step, Said, Enabled;
    RunInv(states, events, k);
    AtMostOne(states[k]);
    if k == 0 {
      assert states[0] == INITIAL;
    } else {
      RunInv(states, events, k - 1);
      LinesWritten(states, events, k - 1);
      assert Enabled(states[k - 1], events[k - 1]) && states[k - 1 + 1] == Step(states[k - 1], events[k - 1]);
      StepSays(states[k - 1], events[k - 1]);
    }
  }

  lemma AtMostOne(s: State)
    requires Inv(s)
    ensures |Unwritten(s)| <= 1
  {
    hide Held;
    var i: nat :| i < 3 && HolderIs(s, i);
    HolderHasAll(s, i);
  }

  /** So the output file holds, in order, what has been said; at most the newest message is not in it. */
  lemma LinesLogged(states: seq<State>, events: seq<Event>, k: nat)
    requires IsRun(states, events) && k <= |events|
    ensures states[k].log <= Texts(Authored(states, events, k))
    ensures |Authored(states, events, k)| <= |states[k].log| + 1
  {
    LinesWritten(states, events, k);
    RunInv(states, events, k);
    ExactlyOnceLog(states[k]);
    HandMeansLogged(states[k]);
    assert Texts(states[k].written + Unwritten(states[k])) == Texts(states[k].written) + Texts(Unwritten(states[k]));
  }

  lemma HandMeansLogged(s: State)
    requires Inv(s)
    ensures Unwritten(s) != [] ==> AllLogged(s)
  {
    hide Inv;
    NoTornRead(s, 0);
    NoTornRead(s, 1);
    NoTornRead(s, 2);
  }

  /** The parent has left its loop exactly when it has read the line TERMINATE in turn. */
  lemma {:induction false} DoneIff(states: seq<State>, events: seq<Event>, k: nat)
    requires IsRun(states, events) && k <= |events|
    ensures Shaped(states[k])
    ensures states[k].pcs[0] == Done <==> exists j: nat :: j < k && Stops(states[j], events[j])
  {
    hide Stops, Step, Enabled;
    RunInv(states, events, k);
    if k == 0 {
      assert states[0] == INITIAL;
    } else {
      DoneIff(states, events, k - 1);
      assert Enabled(states[k - 1], events[k - 1]) && states[k - 1 + 1] == Step(states[k - 1], events[k - 1]);
      DoneStep(states[k - 1], events[k - 1]);
    }
  }

  /** The parent reads the word that ends its loop. */
  predicate Stops(s: State, e: Event) {
    Shaped(s) && e.Run? && e.i == 0 && s.pcs[0] == Input && e.line == "TERMINATE"
  }

  lemma DoneStep(s: State, e: Event)
    requires Shaped(s) && Enabled(s, e)
    ensures Step(s, e).pcs[0] == Done
            <==> s.pcs[0] == Done || Stops(s, e)
  {
  }

  // ----- every conversation can happen

  /** The parent goes on as long as its lines are not the word that ends the loop. */
  predicate Conversation(lines: seq<string>) {
    forall k | 0 < k < |lines| && k % 3 == 0 :: lines[k] != "TERMINATE"
  }

  function Spoken(lines: seq<string>): (ms: seq<Message>)
    ensures |ms| == |lines|
  {
    seq(|lines|, k requires 0 <= k < |lines| => Message(k % 3, Name(k % 3) + lines[k]))
  }

  /** Process i has just put the last of the messages into the buffer, and the others wait. */
  function Posting(ms: seq<Message>, i: nat): (s: State)
    requires ms != [] && i < 3
    ensures Shaped(s)
  {
    State([Wait, Wait, Wait][i := Post], [0, 0, 0], Full(ms[|ms| - 1].text), Texts(ms[..|ms| - 1]), ms)
  }

  /** A statement of process i, which gets the given line if it reads one. */
  function Does(i: nat, line: string): Event { Run(i, line, false) }

  /** Process j has logged the last of the messages and is about to read. */
  function Asking(ms: seq<Message>, j: nat): (s: State)
    requires ms != [] && j < 3
    ensures Shaped(s)
  {
    State([Wait, Wait, Wait][j := Input], [0, 0, 0], Full(ms[|ms| - 1].text), Texts(ms), ms)
  }

  ghost predicate Then(s: State, e: Event, t: State) {
    Shaped(s) && Enabled(s, e) && Step(s, e) == t
  }

  /** Process j may go on: it has been let in and is about to read the buffer. */
  function Admitted(ms: seq<Message>, j: nat): (s: State)
    requires ms != [] && j < 3
    ensures Shaped(s)
  {
    State([Wait, Wait, Wait][j := Read], [0, 0, 0], Full(ms[|ms| - 1].text), Texts(ms[..|ms| - 1]), ms)
  }

  /** Once process i has written, it lets in the next one. */
  lemma PostTurn(ms: seq<Message>, i: nat, j: nat) returns (a: State)
    requires ms != [] && i < 3 && j == Succ(i)
    ensures Then(Posting(ms, i), Does(i, ""), a) && Then(a, Does(j, ""), Admitted(ms, j))
  {
    a := Step(Posting(ms, i), Does(i, ""));
  }

  /** That one copies the message into the output file. */
  lemma LogTurn(ms: seq<Message>, j: nat) returns (a: State)
    requires ms != [] && j < 3
    ensures Then(Admitted(ms, j), Does(j, ""), a) && Then(a, Does(j, ""), Asking(ms, j))
  {
    a := Step(Admitted(ms, j), Does(j, ""));
    assert ms[..|ms| - 1] + [ms[|ms| - 1]] == ms;
    TextsAppend(ms[..|ms| - 1], ms[|ms| - 1]);
  }

  /** Then it reads its line and writes it under its name. */
  lemma WriteTurn(ms: seq<Message>, j: nat, line: string) returns (a: State, b: State)
    requires ms != [] && j < 3 && !(j == 0 && line == "TERMINATE")
    ensures Then(Asking(ms, j), Does(j, line), a) && Then(a, Does(j, line), b)
    ensures Then(b, Does(j, line), Posting(ms + [Message(j, Name(j) + line)], j))
  {
    a := Step(Asking(ms, j), Does(j, line));
    b := Step(a, Does(j, line));
    assert (ms + [Message(j, Name(j) + line)])[..|ms|] == ms;
  }

  lemma FirstTurn(line: string) returns (states: seq<State>, events: seq<Event>)
    ensures IsRun(states, events) && states[|events|] == Posting([Message(0, Name(0) + line)], 0)
  {
    var a := Step(INITIAL, Does(0, line));
    var b := Step(a, Does(0, line));
    var c := Step(b, Does(0, line));
    states, events := [INITIAL, a, b, c], [Does(0, line), Does(0, line), Does(0, line)];
  }

  lemma SpokenStep(lines: seq<string>)
    requires lines != [] && Conversation(lines)
    ensures
      var n := |lines| - 1;
      && Spoken(lines) == Spoken(lines[..n]) + [Message(n % 3, Name(n % 3) + lines[n])]
      && Conversation(lines[..n])
      && (n == 0 ==> Spoken(lines) == [Message(0, Name(0) + lines[0])])
      && (n > 0 ==> n % 3 == Succ((n - 1) % 3) && !(n % 3 == 0 && lines[n] == "TERMINATE"))
  {
  }

  /** Every sequence of lines is what some run writes, line by line, each under its reader's name. */
  lemma {:induction false} EveryConversation(lines: seq<string>) returns (states: seq<State>, events: seq<Event>)
    requires lines != [] && Conversation(lines)
    ensures IsRun(states, events)
    ensures states[|events|] == Posting(Spoken(lines), (|lines| - 1) % 3)
    ensures states[|events|].written == Spoken(lines)
  {
    hide IsRun, Conversation, Spoken;
    SpokenStep(lines);
    var n := |lines| - 1;
    if n == 0 {
      states, events := FirstTurn(lines[0]);
    } else {
      states, events := EveryConversation(lines[..n]);
      states, events := TakeTurn(states, events, Spoken(lines[..n]), (n - 1) % 3, n % 3, lines[n]);
    }
  }

  lemma TakeTurn(states: seq<State>, events: seq<Event>, ms: seq<Message>, i: nat, j: nat, line: string)
    returns (states': seq<State>, events': seq<Event>)
    requires ms != [] && i < 3 && j == Succ(i) && !(j == 0 && line == "TERMINATE")
    requires IsRun(states, events) && states[|events|] == Posting(ms, i)
    ensures IsRun(states', events')
    ensures states'[|events'|] == Posting(ms + [Message(j, Name(j) + line)], j)
  {
    hide Then, IsRun, Posting;
    var a := PostTurn(ms, i, j);
    var c := LogTurn(ms, j);
    var d, e := WriteTurn(ms, j, line);
    states', events' := Extended(states, events, Does(i, ""), a);
    states', events' := Extended(states', events', Does(j, ""), Admitted(ms, j));
    states', events' := Extended(states', events', Does(j, ""), c);
    states', events' := Extended(states', events', Does(j, ""), Asking(ms, j));
    states', events' := Extended(states', events', Does(j, line), d);
    states', events' := Extended(states', events', Does(j, line), e);
    states', events' := Extended(states', events', Does(j, line), Posting(ms + [Message(j, Name(j) + line)], j));
  }

  lemma Extended(states: seq<State>, events: seq<Event>, e: Event, t: State)
    returns (states': seq<State>, events': seq<Event>)
    requires IsRun(states, events) && Then(states[|events|], e, t)
    ensures IsRun(states', events') && states'[|events'|] == t
  {
    hide Step, Enabled;
    states', events' := states + [t], events + [e];
  }
}
