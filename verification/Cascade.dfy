/** Turn taking in the voice cascade: replies supersede each other and are cut off by barge-in, while every turn
    runs on its own goroutine. Each step below is a critical section or a point where others may come between. */
module Cascade {
  import opened Bytes

  datatype Message = System(content: string) | User(content: string) | Assistant(content: string)

  /** Where a turn's goroutine is. */
  datatype Phase =
    | Replying   // waiting for the language model
    | Speaking   // about to take the next chunk and look at its context
    | Sending    // has seen its context alive and is about to send the chunk
    | Leaving    // about to run its deferred function
    | Finished

  /** A turn; its number is its place in the list plus one. */
  datatype Turn = Turn(
    userText: string,
    snapshot: seq<Message>,
    phase: Phase,
    cancelled: bool,
    sentSinceCancel: nat
  ) {
    predicate Live() { !cancelled && phase != Finished }
  }

  /** The shared call state, and the turns begun so far. `cancel` names the turn whose context it cancels. */
  datatype Call = Call(
    history: seq<Message>,
    cancel: Option<nat>,
    speaking: bool,
    turn: nat,
    turns: seq<Turn>
  )

  function NewCall(systemPrompt: string): Call {
    Call(if systemPrompt == "" then [] else [System(systemPrompt)], None, false, 0, [])
  }

  datatype Action =
    | Begin(text: string)
    | BargeIn
    | End
    | Replied(i: nat, text: string)
    | Fails(i: nat)
    | Check(i: nat)
    | Send(i: nat, ok: bool)
    | Drained(i: nat)
    | Leave(i: nat)

  predicate At(c: Call, i: nat, p: Phase) {
    i < |c.turns| && c.turns[i].phase == p
  }

  predicate Enabled(c: Call, a: Action) {
    match a
    case Begin(_) => true
    case BargeIn => true
    case End => true
    case Replied(i, text) => At(c, i, Replying) && text != ""
    case Fails(i) => At(c, i, Replying) || At(c, i, Speaking)
    case Check(i) => At(c, i, Speaking)
    case Send(i, _) => At(c, i, Sending)
    case Drained(i) => At(c, i, Speaking)
    case Leave(i) => At(c, i, Leaving)
  }

  function SetPhase(c: Call, i: nat, p: Phase): Call
    requires i < |c.turns|
  {
    c.(turns := c.turns[i := c.turns[i].(phase := p)])
  }

  /** Calling the cancel function the call state holds, if any. */
  function CancelCurrent(c: Call): Call {
    if c.cancel.Some? && c.cancel.value < |c.turns|
    then c.(turns := c.turns[c.cancel.value := c.turns[c.cancel.value].(cancelled := true)])
    else c
  }

  /** The first critical section of `respond`. */
  function BeginTurn(c: Call, text: string): Call {
    var d := CancelCurrent(c);
    var h := c.history + [User(text)];
    Call(h, Some(|c.turns|), true, c.turn + 1, d.turns + [Turn(text, h, Replying, false, 0)])
  }

  /** The deferred critical section of `respond`. */
  function LeaveTurn(c: Call, i: nat): Call
    requires i < |c.turns|
  {
    var d := SetPhase(c, i, Finished);
    if c.turn == i + 1 then d.(cancel := None, speaking := false) else d
  }

  function Do(c: Call, a: Action): Call
    requires Enabled(c, a)
  {
    match a
    case Begin(text) => BeginTurn(c, text)
    case BargeIn => CancelCurrent(c).(cancel := None)
    case End => CancelCurrent(c)
    case Replied(i, text) => SetPhase(c, i, Speaking).(history := c.history + [Assistant(text)])
    case Fails(i) => SetPhase(c, i, Leaving)
    case Check(i) => SetPhase(c, i, if c.turns[i].cancelled then Leaving else Sending)
    case Send(i, ok) =>
      var t := c.turns[i];
      c.(turns := c.turns[i := t.(phase := if ok then Speaking else Leaving,
                                  sentSinceCancel := if t.cancelled then t.sentSinceCancel + 1 else t.sentSinceCancel)])
    case Drained(i) => SetPhase(c, i, Leaving)
    case Leave(i) => LeaveTurn(c, i)
  }

  function Exec(c: Call, run: seq<Action>): Option<Call>
    decreases |run|
  {
    if run == [] then Some(c)
    else if !Enabled(c, run[0]) then None
    else Exec(Do(c, run[0]), run[1..])
  }

  // ---------------------------------------------------------------------------
  // What every reachable call satisfies
  // ---------------------------------------------------------------------------

  /** Only the newest turn can be live, and then `cancel` is its cancel function. */
  predicate OneLive(c: Call) {
    && c.turn == |c.turns|
    && (forall i | 0 <= i < |c.turns| && c.turns[i].Live() :: i == |c.turns| - 1 && c.cancel == Some(i))
    && (c.cancel.Some? ==> c.cancel.value == |c.turns| - 1 && |c.turns| > 0 && c.turns[c.cancel.value].phase != Finished)
    && (c.speaking <==> |c.turns| > 0 && c.turns[|c.turns| - 1].phase != Finished)
  }

  /** After its cancellation a turn sends at most the one frame it was about to send. */
  predicate OneMoreFrame(t: Turn) {
    && t.sentSinceCancel + (if t.cancelled && t.phase == Sending then 1 else 0) <= 1
    && (!t.cancelled ==> t.sentSinceCancel == 0)
  }

  /** A turn asked about the history as it was when it began, its own words last. */
  predicate OwnHistory(t: Turn, history: seq<Message>) {
    t.snapshot <= history && t.snapshot != [] && t.snapshot[|t.snapshot| - 1] == User(t.userText)
  }

  predicate Inv(c: Call) {
    && OneLive(c)
    && (forall i | 0 <= i < |c.turns| :: OneMoreFrame(c.turns[i]))
    && (forall i | 0 <= i < |c.turns| :: OwnHistory(c.turns[i], c.history))
  }

  lemma OneLiveKept(c: Call, a: Action)
    requires Inv(c) && Enabled(c, a)
    ensures OneLive(Do(c, a))
  {
    hide OneMoreFrame, OwnHistory;
  }

  lemma FramesKept(c: Call, a: Action, i: nat)
    requires Inv(c) && Enabled(c, a) && i < |Do(c, a).turns|
    ensures OneMoreFrame(Do(c, a).turns[i])
  {
    hide OwnHistory, OneLive;
    if i < |c.turns| { assert OneMoreFrame(c.turns[i]); }
  }

  lemma HistoryKept(c: Call, a: Action, i: nat)
    requires Inv(c) && Enabled(c, a) && i < |Do(c, a).turns|
    ensures OwnHistory(Do(c, a).turns[i], Do(c, a).history)
  {
    hide OneMoreFrame, OneLive;
    if i < |c.turns| { assert OwnHistory(c.turns[i], c.history); }
  }

  lemma StepKeepsInv(c: Call, a: Action)
    requires Inv(c) && Enabled(c, a)
    ensures Inv(Do(c, a)) && c.history <= Do(c, a).history
  {
    OneLiveKept(c, a);
    forall i | 0 <= i < |Do(c, a).turns|
      ensures OneMoreFrame(Do(c, a).turns[i]) && OwnHistory(Do(c, a).turns[i], Do(c, a).history)
    {
      FramesKept(c, a, i);
      HistoryKept(c, a, i);
    }
  }

  lemma {:induction false} RunKeepsInv(c: Call, run: seq<Action>)
    requires Inv(c) && Exec(c, run).Some?
    ensures Inv(Exec(c, run).value) && c.history <= Exec(c, run).value.history
    decreases |run|
  {
    hide Do, Enabled, Inv;
    if run != [] {
      StepKeepsInv(c, run[0]);
      RunKeepsInv(Do(c, run[0]), run[1..]);
    }
  }

  /** In every interleaving: at most one turn is neither cancelled nor finished, it is the newest, and `cancel`
      is its cancel function; a cancelled turn sends at most one more frame; and every turn's question to the
      model is a prefix of the history that ends with the turn's own words. */
  lemma Supersession(prompt: string, run: seq<Action>)
    requires Exec(NewCall(prompt), run).Some?
    ensures var c := Exec(NewCall(prompt), run).value;
      && (forall i | 0 <= i < |c.turns| && c.turns[i].Live() :: i == |c.turns| - 1 && c.cancel == Some(i))
      && (forall i | 0 <= i < |c.turns| :: c.turns[i].sentSinceCancel <= 1)
      && (forall i | 0 <= i < |c.turns| :: OwnHistory(c.turns[i], c.history))
      && (c.speaking <==> |c.turns| > 0 && c.turns[|c.turns| - 1].phase != Finished)
  {
    hide Exec, OwnHistory;
    RunKeepsInv(NewCall(prompt), run);
    var c := Exec(NewCall(prompt), run).value;
    assert forall i | 0 <= i < |c.turns| :: OneMoreFrame(c.turns[i]);
  }

  // ---------------------------------------------------------------------------
  // The shared state and its critical sections
  // ---------------------------------------------------------------------------

  lemma ExecSnoc(c: Call, run: seq<Action>, a: Action)
    requires Exec(c, run).Some? && Enabled(Exec(c, run).value, a)
    ensures Exec(c, run + [a]) == Some(Do(Exec(c, run).value, a))
    decreases |run|
  {
    hide Do, Enabled;
    if run == [] {
      assert [] + [a] == [a] && [a][1..] == [];
    } else {
      assert (run + [a])[1..] == run[1..] + [a];
      ExecSnoc(Do(c, run[0]), run[1..], a);
    }
  }

  lemma StartInv(prompt: string)
    ensures Inv(NewCall(prompt))
  {
  }

  /** The state the goroutines of a call share. Each method is one critical section, or one look at a context or one
      frame sent between them; `run` is what they have done so far. */
  class CallState {
    const prompt: string
    var history: seq<Message>
    var cancel: Option<nat>
    var speaking: bool
    var turn: nat
    var turns: seq<Turn>
    ghost var run: seq<Action>

    function View(): Call
      reads this
    {
      Call(history, cancel, speaking, turn, turns)
    }

    ghost predicate Ready()
      reads this
    {
      Exec(NewCall(prompt), run) == Some(View())
    }

    /** The history of the object goes on, and nothing said is forgotten. */
    twostate predicate GoneOn()
      reads this
    {
      Ready() && old(run) <= run && old(history) <= history
    }

    /** Nobody speaks any more: every turn is cancelled or finished. */
    predicate Silenced()
      reads this
    {
      forall i | 0 <= i < |turns| :: !turns[i].Live()
    }

    constructor (systemPrompt: string)
      ensures Ready() && View() == NewCall(systemPrompt) && run == []
      ensures history == (if systemPrompt == "" then [] else [System(systemPrompt)]) && turns == []
    {
      prompt := systemPrompt;
      history := if systemPrompt == "" then [] else [System(systemPrompt)];
      cancel, speaking, turn, turns := None, false, 0, [];
      run := [];
    }

    ghost method Record(c: Call, a: Action)
      requires Exec(NewCall(prompt), run) == Some(c) && Enabled(c, a) && View() == Do(c, a)
      modifies this`run
      ensures Ready() && old(run) <= run && c.history <= history && Inv(View())
    {
      hide Do, Enabled, Inv, Exec;
      StartInv(prompt);
      RunKeepsInv(NewCall(prompt), run);
      ExecSnoc(NewCall(prompt), run, a);
      StepKeepsInv(c, a);
      run := run + [a];
    }

    ghost method Recall()
      requires Ready()
      ensures Inv(View())
    {
      hide Do, Enabled, Inv, Exec;
      StartInv(prompt);
      RunKeepsInv(NewCall(prompt), run);
    }

    /** A context is cancelled once and for all. */
    method CancelContext(i: nat)
      requires i < |turns|
      modifies this`turns
      ensures turns == old(turns)[i := old(turns)[i].(cancelled := true)]
    {
      turns := turns[i := turns[i].(cancelled := true)];
    }

    /** The caller speaks: no turn is live afterwards. */
    method BargeIn()
      requires Ready()
      modifies this
      ensures GoneOn() && Silenced() && cancel == None && history == old(history)
    {
      hide Exec, OneMoreFrame, OwnHistory;
      ghost var c := View();
      Recall();
      if cancel.Some? {
        CancelContext(cancel.value);
        cancel := None;
      }
      Record(c, Action.BargeIn);
    }

    /** The call is over: no turn is live afterwards. */
    method OnEnd()
      requires Ready()
      modifies this
      ensures GoneOn() && Silenced() && history == old(history)
    {
      hide Exec, OneMoreFrame, OwnHistory;
      ghost var c := View();
      Recall();
      if cancel.Some? {
        CancelContext(cancel.value);
      }
      Record(c, End);
    }

    /** A new turn is the only live one. It asks about everything said so far, its own words last. */
    method BeginRespond(userText: string) returns (myTurn: nat, asked: seq<Message>)
      requires Ready()
      modifies this
      ensures GoneOn() && |turns| == |old(turns)| + 1 && myTurn == |turns|
      ensures forall i | 0 <= i < |turns| :: turns[i].Live() <==> i == myTurn - 1
      ensures cancel == Some(myTurn - 1) && speaking && At(View(), myTurn - 1, Replying)
      ensures asked == history == old(history) + [User(userText)]
    {
      hide Exec, OneMoreFrame, OwnHistory;
      ghost var c := View();
      Recall();
      if cancel.Some? {
        CancelContext(cancel.value);
      }
      cancel := Some(|turns|);
      speaking := true;
      turn := turn + 1;
      myTurn := turn;
      history := history + [User(userText)];
      asked := history;
      turns := turns + [Turn(userText, asked, Replying, false, 0)];
      Record(c, Begin(userText));
    }

    /** The model's reply becomes part of the conversation, even of a turn that was cancelled meanwhile. */
    method AddReply(myTurn: nat, reply: string)
      requires Ready() && myTurn > 0 && At(View(), myTurn - 1, Replying) && reply != ""
      modifies this
      ensures GoneOn() && history == old(history) + [Assistant(reply)] && At(View(), myTurn - 1, Speaking)
    {
      hide Exec;
      ghost var c := View();
      history := history + [Assistant(reply)];
      turns := turns[myTurn - 1 := turns[myTurn - 1].(phase := Speaking)];
      Record(c, Replied(myTurn - 1, reply));
    }

    /** The look at the context before each chunk: a turn may go on only if it is live, and then it is the newest. */
    method MayGoOn(myTurn: nat) returns (ok: bool)
      requires Ready() && myTurn > 0 && At(View(), myTurn - 1, Speaking)
      modifies this
      ensures GoneOn() && At(View(), myTurn - 1, if ok then Sending else Leaving)
      ensures ok <==> turns[myTurn - 1].Live()
      ensures ok ==> myTurn == |turns| && cancel == Some(myTurn - 1)
    {
      hide Exec, OneMoreFrame, OwnHistory;
      ghost var c := View();
      ok := !turns[myTurn - 1].cancelled;
      turns := turns[myTurn - 1 := turns[myTurn - 1].(phase := if ok then Sending else Leaving)];
      Record(c, Check(myTurn - 1));
    }

    /** Sending the chunk. A turn cancelled since it looked has now sent the one frame more it may. */
    method SendChunk(myTurn: nat, ok: bool)
      requires Ready() && myTurn > 0 && At(View(), myTurn - 1, Sending)
      modifies this
      ensures GoneOn() && At(View(), myTurn - 1, if ok then Speaking else Leaving) && history == old(history)
      ensures turns[myTurn - 1].sentSinceCancel == if old(turns)[myTurn - 1].cancelled then 1 else 0
    {
      hide Exec, OwnHistory, OneLive;
      ghost var c := View();
      Recall();
      assert OneMoreFrame(c.turns[myTurn - 1]);
      var t := turns[myTurn - 1];
      turns := turns[myTurn - 1 := t.(phase := if ok then Speaking else Leaving,
                                      sentSinceCancel := if t.cancelled then t.sentSinceCancel + 1 else t.sentSinceCancel)];
      Record(c, Send(myTurn - 1, ok));
      assert OneMoreFrame(turns[myTurn - 1]);
    }

    /** No reply, no speech, or none left. */
    method Abandon(myTurn: nat)
      requires Ready() && myTurn > 0 && (At(View(), myTurn - 1, Replying) || At(View(), myTurn - 1, Speaking))
      modifies this
      ensures GoneOn() && history == old(history) && At(View(), myTurn - 1, Leaving)
    {
      hide Exec;
      ghost var c := View();
      turns := turns[myTurn - 1 := turns[myTurn - 1].(phase := Leaving)];
      Record(c, Fails(myTurn - 1));
    }

    /** A turn ends: the call goes on speaking exactly if a newer turn has not ended. */
    method EndRespond(myTurn: nat)
      requires Ready() && myTurn > 0 && At(View(), myTurn - 1, Leaving)
      modifies this
      ensures GoneOn() && history == old(history) && |turns| == |old(turns)| && At(View(), myTurn - 1, Finished)
      ensures speaking <==> turns[|turns| - 1].phase != Finished
      ensures myTurn < |turns| ==> cancel == old(cancel) && speaking == old(speaking)
    {
      hide Exec, OneMoreFrame, OwnHistory;
      ghost var c := View();
      Recall();
      turns := turns[myTurn - 1 := turns[myTurn - 1].(phase := Finished)];
      if turn == myTurn {
        cancel := None;
        speaking := false;
      }
      Record(c, Leave(myTurn - 1));
    }
  }

  /** Whatever the goroutines have done with the object, in any interleaving. */
  lemma SupersessionOfObject(st: CallState)
    requires st.Ready()
    ensures forall i | 0 <= i < |st.turns| && st.turns[i].Live() :: i == |st.turns| - 1 && st.cancel == Some(i)
    ensures forall i | 0 <= i < |st.turns| :: st.turns[i].sentSinceCancel <= 1
    ensures forall i | 0 <= i < |st.turns| :: OwnHistory(st.turns[i], st.history)
  {
    hide Exec, OwnHistory;
    Supersession(st.prompt, st.run);
  }
}
