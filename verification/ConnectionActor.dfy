/** The messages that travel between the actors of one connection. */
module Messages {
  /** A client connection to itself. */
  datatype SelfMessage = FromUserGetInput | GoodbyeConnection

  /** A connection to its command actor. */
  datatype ToCommand = PerformWelcome | OnUserInput(line: string)

  /** A command actor to its login controller. */
  datatype ToLogin = LoginControllerStart | LoginInput(line: string)

  /** What a controller, or the command actor on its behalf, tells the user. */
  datatype Reply = ToUserPrompt(prompt: string) | ToUserEmit(emission: string) | LoginControllerEnd

  /** A credential sent to the event recorder: the name and the text that was hashed. */
  datatype Event = EventUserCreate(username: string, hashed: string)

  const DEFAULT_PROMPT: string := "pmud"
}

/** Reading and cleaning what the user types. */
module Reading {
  import opened Bytes

  /** Control characters below the line feed and bytes above 127 are dropped; a zero ends the text. */
  function LiteSanitize(data: seq<byte>): string {
    if data == [] || data[0] == 0 then ""
    else if 10 <= data[0] <= 127 then [data[0] as char] + LiteSanitize(data[1..])
    else LiteSanitize(data[1..])
  }

  function Sanitize(text: string): string {
    if text == "" then ""
    else if ' ' <= text[0] <= 127 as char then [text[0]] + Sanitize(text[1..])
    else Sanitize(text[1..])
  }

  lemma {:induction false} SanitizeAppend(x: string, y: string)
    ensures Sanitize(x + y) == Sanitize(x) + Sanitize(y)
  {
    if x == "" {
      assert x + y == y;
    } else {
      assert (x + y)[1..] == x[1..] + y;
      SanitizeAppend(x[1..], y);
    }
  }

  /** Together with `SanitizeAppend` this says what is kept: the printable characters, in their order. */
  lemma SanitizeOne(c: char)
    ensures Sanitize([c]) == if ' ' <= c <= 127 as char then [c] else ""
  {
    assert [c][1..] == "";
  }

  /** The same for what is read: of the bytes before the first zero, the ASCII ones from the line feed on. */
  lemma {:induction false} LiteSanitizeAppend(x: seq<byte>, y: seq<byte>)
    ensures LiteSanitize(x + y) == if 0 in x then LiteSanitize(x) else LiteSanitize(x) + LiteSanitize(y)
  {
    if x == [] {
      assert x + y == y;
    } else {
      assert (x + y)[1..] == x[1..] + y;
      LiteSanitizeAppend(x[1..], y);
    }
  }

  lemma LiteSanitizeOne(b: byte)
    ensures LiteSanitize([b]) == if 10 <= b <= 127 then [b as char] else ""
  {
    assert [b][1..] == [];
  }

  /** What one look at the socket finds: nothing, a break, or some text. */
  datatype Look = NoData | Break | Fragment(text: string)

  /** A telnet command or a lone end-of-transmission byte counts as a break. */
  function ReadFromUser(data: seq<byte>): Look {
    if data == [] || data[0] == 0xff || (|data| == 1 && data[0] == 4) then Break else Fragment(LiteSanitize(data))
  }
}

/** The connection actor. */
module ConnectionActors {
  import opened Bytes
  import opened Messages
  import opened Reading

  datatype Connection = Connection(breakCount: nat, currentInput: string)

  datatype Polled = Polled(next: Connection, toSelf: seq<SelfMessage>, toCommand: seq<ToCommand>)

  predicate Quits(line: string) { line == "quit" || line == "exit" }

  function OnPoll(c: Connection, look: Look): Polled {
    match look
    case NoData => Polled(c, [FromUserGetInput], [])
    case Break =>
      if c.breakCount == 0 then Polled(c.(breakCount := 1), [FromUserGetInput], [])
      else Polled(c, [GoodbyeConnection], [])
    case Fragment(text) =>
      if '\n' !in text then Polled(Connection(0, c.currentInput + text), [FromUserGetInput], [])
      else
        var line := Sanitize(c.currentInput + text);
        if Quits(line) then Polled(Connection(0, ""), [GoodbyeConnection], [])
        else Polled(Connection(0, ""), [FromUserGetInput], [OnUserInput(line)])
  }

  // ---------------------------------------------------------------------------
  // A whole conversation, told from what the looks find
  // ---------------------------------------------------------------------------

  /** Everything a connection has sent after some looks, one poll each. */
  function Converse(looks: seq<Look>): Polled {
    if looks == [] then Polled(Connection(0, ""), [], [])
    else
      var before := Converse(looks[..|looks| - 1]);
      var p := OnPoll(before.next, looks[|looks| - 1]);
      Polled(p.next, before.toSelf + p.toSelf, before.toCommand + p.toCommand)
  }

  /** The text read since the last line feed. */
  function Pending(looks: seq<Look>): string {
    if looks == [] then ""
    else
      var before, last := Pending(looks[..|looks| - 1]), looks[|looks| - 1];
      if !last.Fragment? then before else if '\n' in last.text then "" else before + last.text
  }

  /** The last look that found anything found a break. */
  ghost predicate AfterBreak(looks: seq<Look>) {
    exists j | 0 <= j < |looks| :: looks[j].Break? && forall i | j < i < |looks| :: looks[i].NoData?
  }

  /** The line a look completes, if any. */
  function Completes(looks: seq<Look>, look: Look): seq<string> {
    if look.Fragment? && '\n' in look.text then [Sanitize(Pending(looks) + look.text)] else []
  }

  /** All lines completed by some looks. */
  function Completed(looks: seq<Look>): seq<string> {
    if looks == [] then []
    else Completed(looks[..|looks| - 1]) + Completes(looks[..|looks| - 1], looks[|looks| - 1])
  }

  /** A second break with nothing read in between, or a line that quits. */
  ghost predicate HangsUp(looks: seq<Look>, look: Look) {
    (look.Break? && AfterBreak(looks)) || exists line <- Completes(looks, look) :: Quits(line)
  }

  function Submitted(lines: seq<string>): seq<ToCommand> {
    if lines == [] || Quits(lines[0]) then [] else [OnUserInput(lines[0])]
  }

  lemma AfterBreakNext(looks: seq<Look>, look: Look)
    ensures AfterBreak(looks + [look]) <==> look.Break? || (look.NoData? && AfterBreak(looks))
  {
    var all := looks + [look];
    assert all[|looks|] == look;
    if look.Break? {
      assert AfterBreak(all);
    }
    if look.NoData? && AfterBreak(looks) {
      var j :| 0 <= j < |looks| && looks[j].Break? && forall i | j < i < |looks| :: looks[i].NoData?;
      assert all[j].Break? && forall i | j < i < |all| :: all[i].NoData?;
    }
    if AfterBreak(all) && !look.Break? {
      var j :| 0 <= j < |all| && all[j].Break? && forall i | j < i < |all| :: all[i].NoData?;
      assert looks[j].Break? && forall i | j < i < |looks| :: looks[i].NoData? by {
        assert forall i | j < i < |looks| :: looks[i] == all[i];
      }
    }
  }

  lemma OneMoreLook(looks: seq<Look>, look: Look)
    ensures var before := Converse(looks);
      var p := OnPoll(before.next, look);
      Converse(looks + [look]) == Polled(p.next, before.toSelf + p.toSelf, before.toCommand + p.toCommand)
    ensures Pending(looks + [look])
         == if !look.Fragment? then Pending(looks) else if '\n' in look.text then "" else Pending(looks) + look.text
  {
    hide OnPoll;
    assert (looks + [look])[..|looks|] == looks;
  }

  /** What the connection remembers is what the looks tell. */
  lemma {:induction false} Remembers(looks: seq<Look>)
    ensures Converse(looks).next.currentInput == Pending(looks)
    ensures Converse(looks).next.breakCount > 0 <==> AfterBreak(looks)
    decreases |looks|
  {
    if looks != [] {
      var before, look := looks[..|looks| - 1], looks[|looks| - 1];
      assert looks == before + [look];
      Remembers(before);
      OneMoreLook(before, look);
      AfterBreakNext(before, look);
      hide Converse, Pending, AfterBreak, Sanitize;
    }
  }

  /** A look is answered by a goodbye exactly when it is the second break with nothing read in between or
      completes a line that quits, and otherwise by the next poll; the line it completes is passed on unless
      it quits. Nothing else is ever sent. */
  lemma LookAnswered(looks: seq<Look>, look: Look)
    ensures Converse(looks + [look]).toSelf
         == Converse(looks).toSelf + [if HangsUp(looks, look) then GoodbyeConnection else FromUserGetInput]
    ensures Converse(looks + [look]).toCommand == Converse(looks).toCommand + Submitted(Completes(looks, look))
  {
    OneMoreLook(looks, look);
    Remembers(looks);
    hide Converse, Pending, AfterBreak, Sanitize, Quits;
    assert forall line <- Completes(looks, look) :: line == Completes(looks, look)[0];
  }

  lemma {:induction false} OneAnswerEach(looks: seq<Look>)
    ensures |Converse(looks).toSelf| == |looks|
    decreases |looks|
  {
    hide OnPoll, HangsUp;
    if looks != [] {
      var before, look := looks[..|looks| - 1], looks[|looks| - 1];
      assert looks == before + [look];
      OneAnswerEach(before);
      LookAnswered(before, look);
    }
  }

  /** The same for every look of a conversation. */
  lemma {:induction false} LooksAnswered(looks: seq<Look>, k: nat)
    requires k < |looks|
    ensures |Converse(looks).toSelf| == |looks|
    ensures Converse(looks).toSelf[k] == if HangsUp(looks[..k], looks[k]) then GoodbyeConnection else FromUserGetInput
    decreases |looks|
  {
    hide Converse, HangsUp;
    var before, look := looks[..|looks| - 1], looks[|looks| - 1];
    assert looks == before + [look];
    LookAnswered(before, look);
    OneAnswerEach(before);
    OneAnswerEach(looks);
    if k < |before| {
      LooksAnswered(before, k);
      assert before[..k] == looks[..k];
    } else {
      assert before == looks[..k];
    }
  }

  /** What the welcome makes a connection send to its command actor. */
  function OnWelcomed(): seq<ToCommand> { [PerformWelcome] }

  /** What a prompt makes it send to itself. */
  function OnPrompted(): seq<SelfMessage> { [FromUserGetInput] }

  /** The socket, the entry in the registry, and whether an exit is on its way. */
  datatype Standing = Standing(open: bool, registered: bool, exiting: bool)

  /** A goodbye closes the socket, leaves the registry and tells the actor to exit. */
  function OnGoodbye(): Standing { Standing(false, false, true) }

  class ConnectionActor {
    var breakCount: nat
    var currentInput: string
    /** Messages sent so far. */
    var toSelf: seq<SelfMessage>
    var toCommand: seq<ToCommand>
    var standing: Standing

    function State(): Connection reads this { Connection(breakCount, currentInput) }

    method OnPerformWelcome()
      modifies this`toCommand
      ensures toCommand == old(toCommand) + OnWelcomed()
    {
      toCommand := toCommand + [PerformWelcome];
    }

    method OnToUserPrompt()
      modifies this`toSelf
      ensures toSelf == old(toSelf) + OnPrompted()
    {
      toSelf := toSelf + [FromUserGetInput];
    }

    method OnFromUserGetInput(hasData: bool, data: seq<byte>)
      modifies this`breakCount, this`currentInput, this`toSelf, this`toCommand
      ensures var p := OnPoll(old(State()), if hasData then ReadFromUser(data) else NoData);
        State() == p.next && toSelf == old(toSelf) + p.toSelf && toCommand == old(toCommand) + p.toCommand
    {
      hide Sanitize, LiteSanitize;
      if hasData {
        var userRead := ReadFromUser(data);
        if userRead.Break? {
          if breakCount == 0 {
            breakCount := breakCount + 1;
            toSelf := toSelf + [FromUserGetInput];
          } else {
            toSelf := toSelf + [GoodbyeConnection];
          }
        } else {
          breakCount := 0;
          if '\n' !in userRead.text {
            currentInput := currentInput + userRead.text;
            toSelf := toSelf + [FromUserGetInput];
          } else {
            var finalUserRead := Sanitize(currentInput + userRead.text);
            currentInput := "";
            if finalUserRead == "quit" || finalUserRead == "exit" {
              toSelf := toSelf + [GoodbyeConnection];
            } else {
              toCommand := toCommand + [OnUserInput(finalUserRead)];
              toSelf := toSelf + [FromUserGetInput];
            }
          }
        }
      } else {
        toSelf := toSelf + [FromUserGetInput];
      }
    }

    method OnGoodbyeConnection()
      modifies this`standing
      ensures standing == OnGoodbye()
    {
      standing := standing.(open := false);
      standing := standing.(registered := false);
      standing := standing.(exiting := true);
    }
  }
}
