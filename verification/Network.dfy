/** All actors of one connection and the messages in flight between them. Each channel
    keeps the order of its sender; otherwise messages arrive in any interleaving. */
module Network {
  import opened Messages
  import opened Reading
  import opened ConnectionActors
  import opened LoginControllers
  import opened CommandActors

  /** What has happened so far. */
  datatype History = History(
    prompted: nat,            // prompts the connection has handled
    hungUp: nat,              // goodbyes sent by polling
    looks: seq<Look>,         // what each poll found
    answers: seq<SelfMessage>, // what each poll sent to the connection itself
    read: string,             // all text read from the user
    lines: seq<string>,       // all lines completed
    typed: seq<string>,       // the lines passed on to the command actor
    forLogin: seq<string>,    // lines passed on to the login controller
    forDefault: seq<string>,  // lines passed on to the default controller
    loginHeard: seq<string>,
    defaultHeard: seq<string>,
    events: seq<Event>,
    ends: nat)                // login ends the command actor has handled

  datatype System = System(
    connection: Connection, connectionLive: bool, connectionExit: bool,
    active: Controller, commandLive: bool, commandExit: bool,
    login: Login, loginLive: bool, loginExit: bool,
    defaultLive: bool, defaultExit: bool,
    welcome: bool,                  // server to connection
    self: seq<SelfMessage>,         // connection to itself
    toCommand: seq<ToCommand>, toConnection: seq<Reply>,
    toLogin: seq<ToLogin>, fromLogin: seq<Reply>,
    toDefault: seq<string>, fromDefault: seq<Reply>,
    past: History)

  const INITIAL: System := System(
    Connection(0, ""), true, false, Nobody, true, false, Login("", ""), false, false, true, false,
    true, [], [], [], [], [], [], [], History(0, 0, [], [], "", [], [], [], [], [], [], [], 0))

  /** Whose turn it is: which message is delivered next. */
  datatype Turn = Welcomed | Self(look: Look) | Shown | Shutdown | ConnectionExits
                | FromConnection | FromLogin | FromDefault | CommandExits
                | LoginHears | LoginExits | DefaultHears | DefaultExits

  predicate Enabled(s: System, t: Turn) {
    match t
    case Welcomed => s.connectionLive && s.welcome
    case Self(_) => s.connectionLive && s.self != []
    case Shown => s.connectionLive && s.toConnection != []
    case Shutdown => s.connectionLive
    case ConnectionExits => s.connectionLive && s.connectionExit
    case FromConnection => s.commandLive && s.toCommand != []
    case FromLogin => s.commandLive && s.fromLogin != []
    case FromDefault => s.commandLive && s.fromDefault != []
    case CommandExits => s.commandLive && s.commandExit
    case LoginHears => s.loginLive && s.toLogin != []
    case LoginExits => s.loginLive && s.loginExit
    case DefaultHears => s.defaultLive && s.toDefault != []
    case DefaultExits => s.defaultLive && s.defaultExit
  }

  function TextOf(look: Look): string { if look.Fragment? then look.text else "" }

  /** The line a look completes, if any. */
  function LineOf(c: Connection, look: Look): seq<string> {
    if look.Fragment? && '\n' in look.text then [Sanitize(c.currentInput + look.text)] else []
  }

  function Lines(ms: seq<ToCommand>): seq<string> {
    if ms == [] then [] else (if ms[0].OnUserInput? then [ms[0].line] else []) + Lines(ms[1..])
  }

  function SelfTurn(s: System, look: Look): System
    requires s.self != []
  {
    if s.self[0].GoodbyeConnection? then s.(self := s.self[1..], connectionExit := OnGoodbye().exiting)
    else
      var p := OnPoll(s.connection, look);
      s.(connection := p.next, self := s.self[1..] + p.toSelf, toCommand := s.toCommand + p.toCommand,
         past := s.past.(hungUp := s.past.hungUp + if p.toSelf == [GoodbyeConnection] then 1 else 0,
                         looks := s.past.looks + [look],
                         answers := s.past.answers + p.toSelf,
                         read := s.past.read + TextOf(look),
                         lines := s.past.lines + LineOf(s.connection, look),
                         typed := s.past.typed + Lines(p.toCommand)))
  }

  function ShownTurn(s: System): System
    requires s.toConnection != []
  {
    var rest := s.(toConnection := s.toConnection[1..]);
    if s.toConnection[0].ToUserPrompt?
    then rest.(self := s.self + OnPrompted(), past := s.past.(prompted := s.past.prompted + 1))
    else rest
  }

  /** The command actor's messages and exits go out. */
  function Dispatched(s: System, d: Dispatch): System {
    s.(active := d.active, toConnection := s.toConnection + d.toConnection, toLogin := s.toLogin + d.toLogin,
       toDefault := s.toDefault + d.toDefault,
       loginExit := s.loginExit || d.exits == TheLogin, defaultExit := s.defaultExit || d.exits == TheDefault)
  }

  function FromConnectionTurn(s: System): System
    requires s.toCommand != []
  {
    var rest := s.(toCommand := s.toCommand[1..]);
    match s.toCommand[0]
    case PerformWelcome => Dispatched(rest, OnWelcome()).(login := Login("", ""), loginLive := true, loginExit := false)
    case OnUserInput(line) =>
      Dispatched(rest, OnLine(s.active, line)).(
        past := s.past.(forLogin := s.past.forLogin + if s.active == TheLogin then [line] else [],
                        forDefault := s.past.forDefault + if s.active == TheDefault then [line] else []))
  }

  function FromLoginTurn(s: System): System
    requires s.fromLogin != []
  {
    var r := s.fromLogin[0];
    Dispatched(s.(fromLogin := s.fromLogin[1..]), OnReply(s.active, r)).(
      past := s.past.(ends := s.past.ends + if r.LoginControllerEnd? then 1 else 0))
  }

  function LoginTurn(s: System): System
    requires s.toLogin != []
  {
    var rest := s.(toLogin := s.toLogin[1..]);
    match s.toLogin[0]
    case LoginControllerStart => rest.(fromLogin := s.fromLogin + OnStarted())
    case LoginInput(line) =>
      var a := OnInput(s.login, line);
      rest.(login := a.next, fromLogin := s.fromLogin + a.replies,
            past := s.past.(loginHeard := s.past.loginHeard + [line], events := s.past.events + a.events))
  }

  function Next(s: System, t: Turn): System
    requires Enabled(s, t)
  {
    match t
    case Welcomed => s.(welcome := false, toCommand := s.toCommand + OnWelcomed())
    case Self(look) => SelfTurn(s, look)
    case Shown => ShownTurn(s)
    case Shutdown => s.(connectionExit := OnGoodbye().exiting)
    case ConnectionExits => s.(connectionLive := false, commandExit := true)
    case FromConnection => FromConnectionTurn(s)
    case FromLogin => FromLoginTurn(s)
    case FromDefault => Dispatched(s.(fromDefault := s.fromDefault[1..]), OnReply(s.active, s.fromDefault[0]))
    case CommandExits => s.(commandLive := false, defaultExit := true, loginExit := s.loginExit || s.active == TheLogin)
    case LoginHears => LoginTurn(s)
    case LoginExits => s.(loginLive := false)
    case DefaultHears =>
      s.(toDefault := s.toDefault[1..], fromDefault := s.fromDefault + DefaultAnswer(s.toDefault[0]),
         past := s.past.(defaultHeard := s.past.defaultHeard + [s.toDefault[0]]))
    case DefaultExits => s.(defaultLive := false)
  }

  // ---------------------------------------------------------------------------
  // Counting messages
  // ---------------------------------------------------------------------------

  function Count<T>(ms: seq<T>, p: T -> bool): nat {
    if ms == [] then 0 else (if p(ms[0]) then 1 else 0) + Count(ms[1..], p)
  }

  lemma {:induction false} CountAppend<T>(x: seq<T>, y: seq<T>, p: T -> bool)
    ensures Count(x + y, p) == Count(x, p) + Count(y, p)
  {
    if x == [] {
      assert x + y == y;
    } else {
      assert (x + y)[1..] == x[1..] + y;
      CountAppend(x[1..], y, p);
    }
  }

  lemma Popped<T>(ms: seq<T>, p: T -> bool)
    requires ms != []
    ensures Count(ms, p) == (if p(ms[0]) then 1 else 0) + Count(ms[1..], p)
  {
  }

  lemma CountOne<T>(m: T, p: T -> bool)
    ensures Count([m], p) == if p(m) then 1 else 0
  {
  }

  lemma Pushed<T>(ms: seq<T>, m: T, p: T -> bool)
    ensures Count(ms + [m], p) == Count(ms, p) + if p(m) then 1 else 0
  {
    CountAppend(ms, [m], p);
  }

  lemma {:induction false} OnlyLast<T>(ms: seq<T>, p: T -> bool)
    requires ms != [] && forall i | 0 <= i < |ms| - 1 :: !p(ms[i])
    ensures Count(ms, p) == if p(ms[|ms| - 1]) then 1 else 0
  {
    if |ms| > 1 { OnlyLast(ms[1..], p); }
  }

  predicate IsPoll(m: SelfMessage) { m.FromUserGetInput? }

  predicate IsPrompt(r: Reply) { r.ToUserPrompt? }

  predicate IsEnd(r: Reply) { r.LoginControllerEnd? }

  predicate IsStart(m: ToLogin) { m.LoginControllerStart? }

  lemma {:induction false} LinesAppend(x: seq<ToCommand>, y: seq<ToCommand>)
    ensures Lines(x + y) == Lines(x) + Lines(y)
  {
    if x == [] {
      assert x + y == y;
    } else {
      assert (x + y)[1..] == x[1..] + y;
      LinesAppend(x[1..], y);
    }
  }

  lemma LinesPopped(ms: seq<ToCommand>)
    requires ms != []
    ensures Lines(ms) == (if ms[0].OnUserInput? then [ms[0].line] else []) + Lines(ms[1..])
    ensures Lines([]) == []
  {
  }

  lemma LinesOne(line: string)
    ensures Lines([OnUserInput(line)]) == [line] && Lines([]) == []
  {
    assert [OnUserInput(line)][1..] == [];
  }

  function Inputs(ms: seq<ToLogin>): seq<string> {
    if ms == [] then [] else (if ms[0].LoginInput? then [ms[0].line] else []) + Inputs(ms[1..])
  }

  lemma {:induction false} InputsAppend(x: seq<ToLogin>, y: seq<ToLogin>)
    ensures Inputs(x + y) == Inputs(x) + Inputs(y)
  {
    if x == [] {
      assert x + y == y;
    } else {
      assert (x + y)[1..] == x[1..] + y;
      InputsAppend(x[1..], y);
    }
  }

  lemma InputsPopped(ms: seq<ToLogin>)
    requires ms != []
    ensures Inputs(ms) == (if ms[0].LoginInput? then [ms[0].line] else []) + Inputs(ms[1..])
  {
  }

  lemma InputsPushed(ms: seq<ToLogin>, m: ToLogin)
    ensures Inputs(ms + [m]) == Inputs(ms) + if m.LoginInput? then [m.line] else []
  {
    InputsAppend(ms, [m]);
  }

  // ---------------------------------------------------------------------------
  // What every reachable state satisfies
  // ---------------------------------------------------------------------------

  /** Before the welcome has reached the command actor nothing else is on its way. */
  ghost predicate Started(s: System) {
    if s.active == Nobody then
      && s.self == [] && s.toConnection == [] && s.toLogin == [] && s.fromLogin == []
      && s.toDefault == [] && s.fromDefault == [] && s.past == INITIAL.past && s.login == INITIAL.login && !s.loginLive
      && s.connection == INITIAL.connection
      && s.toCommand == if s.welcome then [] else [PerformWelcome]
    else
      !s.welcome && forall m <- s.toCommand :: m.OnUserInput?
  }

  /** Every handled prompt keeps one poll going until a goodbye ends it. */
  ghost predicate Accounted(s: System) {
    Count(s.self, IsPoll) + s.past.hungUp == s.past.prompted
  }

  /** Lines stay in order: first those for the login, then those for the default controller,
      then those still on their way; each controller has heard the first of its lines. */
  ghost predicate Ordered(s: System) {
    && s.past.typed == s.past.forLogin + s.past.forDefault + Lines(s.toCommand)
    && s.past.forLogin == s.past.loginHeard + Inputs(s.toLogin)
    && s.past.forDefault == s.past.defaultHeard + s.toDefault
    && (s.active != TheDefault ==> s.past.forDefault == [])
  }

  /** Prompts shown, and messages in flight that will become one. */
  ghost function Answers(s: System): nat {
    s.past.prompted + Count(s.toConnection, IsPrompt) + Count(s.fromLogin, IsPrompt) + Count(s.fromLogin, IsEnd)
    + Count(s.fromDefault, IsPrompt) + Count(s.toLogin, IsStart)
  }

  /** The welcome and every line a controller has heard are answered by exactly one prompt each. */
  ghost predicate Answered(s: System) {
    && Answers(s) == |s.past.loginHeard| + |s.past.defaultHeard| + (if s.active == Nobody then 0 else 1)
    && Count(s.fromDefault, IsEnd) == 0
  }

  /** The login controller is where its inputs bring it; each record is followed by one end. */
  ghost predicate Recorded(s: System) {
    && LoginRun(s.login, s.past.events) == After(s.past.loginHeard)
    && |s.past.events| == s.past.ends + Count(s.fromLogin, IsEnd)
  }

  ghost predicate Gone(live: bool, exit: bool) { !live || exit }

  /** Who is alive: the active controller, unless the login has ended twice; and nobody is left
      behind without an exit on its way once the actor above has gone. */
  ghost predicate Tended(s: System) {
    && (s.past.ends == 0 <==> s.active != TheDefault)
    && (s.commandLive ==>
          && (s.active == TheLogin ==> !Gone(s.loginLive, s.loginExit))
          && (s.active == TheDefault ==> Gone(s.loginLive, s.loginExit))
          && (Gone(s.defaultLive, s.defaultExit) <==> s.past.ends >= 2))
    && (!s.commandLive ==> Gone(s.loginLive, s.loginExit) && Gone(s.defaultLive, s.defaultExit))
    && (!s.connectionLive ==> Gone(s.commandLive, s.commandExit))
    && (s.commandExit ==> !s.connectionLive)
  }

  function Concat(lines: seq<string>): string {
    if lines == [] then "" else Concat(lines[..|lines| - 1]) + lines[|lines| - 1]
  }

  function PassedOn(lines: seq<string>): seq<string> {
    if lines == [] then []
    else
      var last := lines[|lines| - 1];
      PassedOn(lines[..|lines| - 1]) + if Quits(last) then [] else [last]
  }

  /** No printable character is lost, repeated or moved between lines, however the text was cut. */
  ghost predicate Assembled(s: System) {
    && Sanitize(s.past.read) == Concat(s.past.lines) + Sanitize(s.connection.currentInput)
    && s.past.typed == PassedOn(s.past.lines)
  }

  ghost predicate Inv(s: System) {
    Started(s) && Accounted(s) && Ordered(s) && Answered(s) && Recorded(s) && Tended(s) && Assembled(s)
  }

  lemma WelcomedKept(s: System)
    requires Inv(s) && Enabled(s, Welcomed)
    ensures Inv(Next(s, Welcomed))
  {
    hide OnInput, DefaultAnswer, Sanitize, PassedOn, Concat, OnPoll, OnReply, After;
    LinesAppend(s.toCommand, [PerformWelcome]);
  }

  lemma PromptShownKept(s: System)
    requires Inv(s) && s.toConnection != [] && IsPrompt(s.toConnection[0])
    ensures Inv(ShownTurn(s))
  {
    hide PassedOn, Concat, Lines, Inputs, After, Count, Sanitize;
    Pushed(s.self, FromUserGetInput, IsPoll);
    Popped(s.toConnection, IsPrompt);
  }

  lemma EmitShownKept(s: System)
    requires Inv(s) && s.toConnection != [] && !IsPrompt(s.toConnection[0])
    ensures Inv(ShownTurn(s))
  {
    hide PassedOn, Concat, Lines, Inputs, After, Count, Sanitize;
    Popped(s.toConnection, IsPrompt);
  }

  lemma ShownKept(s: System)
    requires Inv(s) && s.toConnection != []
    ensures Inv(ShownTurn(s))
  {
    hide ShownTurn, Inv;
    if IsPrompt(s.toConnection[0]) { PromptShownKept(s); } else { EmitShownKept(s); }
  }

  lemma Sends(c: Connection, look: Look)
    ensures var p := OnPoll(c, look);
      (p.toSelf == [FromUserGetInput] || p.toSelf == [GoodbyeConnection]) && forall m <- p.toCommand :: m.OnUserInput?
  {
    hide Sanitize;
  }

  lemma PollElsewhere(s: System, look: Look)
    requires Inv(s) && s.self != [] && s.self[0].FromUserGetInput?
    ensures Started(SelfTurn(s, look)) && Answered(SelfTurn(s, look)) && Recorded(SelfTurn(s, look)) && Tended(SelfTurn(s, look))
  {
    hide Count, Lines, Inputs, OnPoll, After, LineOf, TextOf, Accounted, Ordered, Assembled;
    Sends(s.connection, look);
  }

  lemma OneMoreLine(lines: seq<string>, line: string)
    ensures Concat(lines + [line]) == Concat(lines) + line
    ensures PassedOn(lines + [line]) == PassedOn(lines) + if Quits(line) then [] else [line]
  {
    assert (lines + [line])[..|lines|] == lines;
  }

  lemma NothingClean()
    ensures Sanitize("") == ""
  {
  }

  lemma PolledText(s: System, look: Look)
    requires Assembled(s)
    ensures Sanitize(s.past.read + TextOf(look))
         == Concat(s.past.lines + LineOf(s.connection, look)) + Sanitize(OnPoll(s.connection, look).next.currentInput)
    ensures PassedOn(s.past.lines + LineOf(s.connection, look)) == s.past.typed + Lines(OnPoll(s.connection, look).toCommand)
  {
    hide Sanitize, Concat, PassedOn, Quits, Lines;
    var text, c := TextOf(look), s.connection.currentInput;
    SanitizeAppend(s.past.read, text);
    SanitizeAppend(c, text);
    NothingClean();
    if look.Fragment? && '\n' in text {
      OneMoreLine(s.past.lines, Sanitize(c + text));
      LinesOne(Sanitize(c + text));
    } else {
      LinesOne("");
      assert s.past.lines + [] == s.past.lines && s.past.typed + [] == s.past.typed;
      assert Sanitize(s.past.read) + Sanitize(text) == Concat(s.past.lines) + (Sanitize(c) + Sanitize(text));
    }
  }

  lemma PollAssembled(s: System, look: Look)
    requires Assembled(s) && s.self != [] && s.self[0].FromUserGetInput?
    ensures Assembled(SelfTurn(s, look))
  {
    hide Sanitize, PassedOn, Concat, Count, Lines, OnPoll, LineOf, TextOf;
    PolledText(s, look);
  }

  lemma PollCounted(s: System, look: Look)
    requires Inv(s) && s.self != [] && s.self[0].FromUserGetInput?
    ensures Accounted(SelfTurn(s, look))
  {
    hide OnInput, DefaultAnswer, Sanitize, PassedOn, Concat, OnReply, After, Count, Lines, Inputs, Quits, OnPoll, LineOf, TextOf;
    hide Started, Ordered, Answered, Recorded, Tended, Assembled;
    var p := OnPoll(s.connection, look);
    Sends(s.connection, look);
    Popped(s.self, IsPoll);
    CountAppend(s.self[1..], p.toSelf, IsPoll);
    CountOne(p.toSelf[0], IsPoll);
  }

  lemma PollOrdered(s: System, look: Look)
    requires Inv(s) && s.self != [] && s.self[0].FromUserGetInput?
    ensures Ordered(SelfTurn(s, look))
  {
    hide OnInput, DefaultAnswer, Sanitize, PassedOn, Concat, OnReply, After, Count, Lines, Inputs, Quits, OnPoll, LineOf, TextOf;
    hide Started, Accounted, Answered, Recorded, Tended, Assembled;
    LinesAppend(s.toCommand, OnPoll(s.connection, look).toCommand);
  }

  lemma PollKept(s: System, look: Look)
    requires Inv(s) && s.self != [] && s.self[0].FromUserGetInput?
    ensures Inv(SelfTurn(s, look))
  {
    hide SelfTurn, Started, Accounted, Ordered, Answered, Recorded, Tended, Assembled;
    PollCounted(s, look);
    PollOrdered(s, look);
    PollElsewhere(s, look);
    PollAssembled(s, look);
  }

  lemma SelfGoodbyeKept(s: System, look: Look)
    requires Inv(s) && s.self != [] && s.self[0].GoodbyeConnection?
    ensures Inv(SelfTurn(s, look))
  {
    hide OnInput, DefaultAnswer, Sanitize, PassedOn, Concat, OnPoll, OnReply, Lines, After, Count;
    Popped(s.self, IsPoll);
  }

  lemma ConnectionExitsKept(s: System)
    requires Inv(s) && Enabled(s, ConnectionExits)
    ensures Inv(Next(s, ConnectionExits))
  {
    hide OnInput, DefaultAnswer, Sanitize, PassedOn, Concat, OnPoll, OnReply, Lines, After, Count;
  }

  lemma CommandExitsKept(s: System)
    requires Inv(s) && Enabled(s, CommandExits)
    ensures Inv(Next(s, CommandExits))
  {
    hide OnInput, DefaultAnswer, Sanitize, PassedOn, Concat, OnPoll, OnReply, Lines, After, Count;
  }

  lemma LoginExitsKept(s: System)
    requires Inv(s) && Enabled(s, LoginExits)
    ensures Inv(Next(s, LoginExits))
  {
    hide OnInput, DefaultAnswer, Sanitize, PassedOn, Concat, OnPoll, OnReply, Lines, After, Count;
  }

  lemma NothingSent(s: System)
    ensures s.toConnection + [] == s.toConnection && s.toLogin + [] == s.toLogin && s.toDefault + [] == s.toDefault
    ensures s.past.forLogin + [] == s.past.forLogin && s.past.forDefault + [] == s.past.forDefault
  {
  }

  lemma WelcomeTakenKept(s: System)
    requires Inv(s) && s.commandLive && s.toCommand != [] && s.toCommand[0].PerformWelcome?
    ensures Inv(FromConnectionTurn(s))
  {
    hide OnInput, DefaultAnswer, Sanitize, PassedOn, Concat, OnPoll, OnReply, After, Count, Lines, Inputs;
    NothingSent(s);
    assert s.toCommand[0] in s.toCommand;
    LinesPopped(s.toCommand);
    Pushed(s.toLogin, LoginControllerStart, IsStart);
    InputsPushed(s.toLogin, LoginControllerStart);
  }

  function LineToLogin(s: System, line: string): System
    requires s.toCommand != []
  {
    s.(toCommand := s.toCommand[1..], toLogin := s.toLogin + [LoginInput(line)],
       past := s.past.(forLogin := s.past.forLogin + [line]))
  }

  function LineToDefault(s: System, line: string): System
    requires s.toCommand != []
  {
    s.(toCommand := s.toCommand[1..], toDefault := s.toDefault + [line],
       past := s.past.(forDefault := s.past.forDefault + [line]))
  }

  /** A line reaches the active controller: nothing but one channel and the history changes. */
  lemma LineTaken(s: System)
    requires s.toCommand != [] && s.toCommand[0].OnUserInput?
    ensures s.active == TheLogin ==> FromConnectionTurn(s) == LineToLogin(s, s.toCommand[0].line)
    ensures s.active == TheDefault ==> FromConnectionTurn(s) == LineToDefault(s, s.toCommand[0].line)
  {
    NothingSent(s);
  }

  lemma LineHasListener(s: System)
    requires Started(s) && s.toCommand != [] && s.toCommand[0].OnUserInput?
    ensures s.active != Nobody
  {
  }

  lemma LineInOrder(s: System)
    requires Ordered(s) && s.toCommand != [] && s.toCommand[0].OnUserInput?
    ensures var line := s.toCommand[0].line;
      && (s.past.forDefault == [] ==> s.past.typed == (s.past.forLogin + [line]) + s.past.forDefault + Lines(s.toCommand[1..]))
      && s.past.typed == s.past.forLogin + (s.past.forDefault + [line]) + Lines(s.toCommand[1..])
  {
    hide Lines, Inputs;
    LinesPopped(s.toCommand);
  }

  lemma LineToLoginKept(s: System)
    requires Inv(s) && s.toCommand != [] && s.toCommand[0].OnUserInput? && s.active == TheLogin
    ensures Inv(LineToLogin(s, s.toCommand[0].line))
  {
    hide DefaultAnswer, Sanitize, PassedOn, Concat, After, Count, Lines, Inputs;
    InputsPushed(s.toLogin, LoginInput(s.toCommand[0].line));
    Pushed(s.toLogin, LoginInput(s.toCommand[0].line), IsStart);
    LineInOrder(s);
  }

  lemma LineToDefaultKept(s: System)
    requires Inv(s) && s.toCommand != [] && s.toCommand[0].OnUserInput? && s.active == TheDefault
    ensures Inv(LineToDefault(s, s.toCommand[0].line))
  {
    hide DefaultAnswer, Sanitize, PassedOn, Concat, After, Count, Lines, Inputs;
    LineInOrder(s);
  }

  lemma LineTakenKept(s: System)
    requires Inv(s) && s.toCommand != [] && s.toCommand[0].OnUserInput?
    ensures Inv(FromConnectionTurn(s))
  {
    hide FromConnectionTurn, Started, Accounted, Ordered, Answered, Recorded, Tended, Assembled, LineToLogin, LineToDefault;
    LineTaken(s);
    LineHasListener(s);
    if s.active == TheLogin { LineToLoginKept(s); } else { LineToDefaultKept(s); }
  }

  /** A reply passed on to the user. */
  function PassOn(s: System): System
    requires s.fromLogin != []
  {
    s.(fromLogin := s.fromLogin[1..], toConnection := s.toConnection + [s.fromLogin[0]])
  }

  function EndLogin(s: System): System
    requires s.fromLogin != []
  {
    s.(fromLogin := s.fromLogin[1..], toConnection := s.toConnection + [ToUserPrompt(DEFAULT_PROMPT)], active := TheDefault,
       loginExit := s.loginExit || s.active == TheLogin, defaultExit := s.defaultExit || s.active == TheDefault,
       past := s.past.(ends := s.past.ends + 1))
  }

  lemma ReplyTaken(s: System)
    requires s.fromLogin != []
    ensures FromLoginTurn(s) == if IsEnd(s.fromLogin[0]) then EndLogin(s) else PassOn(s)
  {
    NothingSent(s);
  }

  lemma PassOnKept(s: System)
    requires Inv(s) && s.fromLogin != [] && !IsEnd(s.fromLogin[0])
    ensures Inv(PassOn(s))
  {
    hide PassedOn, Concat, After, Count, Lines, Inputs;
    Popped(s.fromLogin, IsPrompt);
    Popped(s.fromLogin, IsEnd);
    Pushed(s.toConnection, s.fromLogin[0], IsPrompt);
  }

  lemma EndLoginKept(s: System)
    requires Inv(s) && s.commandLive && s.fromLogin != [] && IsEnd(s.fromLogin[0])
    ensures Inv(EndLogin(s))
  {
    hide PassedOn, Concat, After, Count, Lines, Inputs;
    Popped(s.fromLogin, IsPrompt);
    Popped(s.fromLogin, IsEnd);
    Pushed(s.toConnection, ToUserPrompt(DEFAULT_PROMPT), IsPrompt);
  }

  lemma FromLoginKept(s: System)
    requires Inv(s) && s.commandLive && s.fromLogin != []
    ensures Inv(FromLoginTurn(s))
  {
    hide FromLoginTurn, PassOn, EndLogin, Inv;
    ReplyTaken(s);
    if IsEnd(s.fromLogin[0]) { EndLoginKept(s); } else { PassOnKept(s); }
  }

  lemma FromDefaultKept(s: System)
    requires Inv(s) && Enabled(s, FromDefault)
    ensures Inv(Next(s, FromDefault))
  {
    hide OnInput, DefaultAnswer, Sanitize, PassedOn, Concat, OnPoll, After, Count, Lines, Inputs;
    NothingSent(s);
    Popped(s.fromDefault, IsPrompt);
    Popped(s.fromDefault, IsEnd);
    Pushed(s.toConnection, s.fromDefault[0], IsPrompt);
  }

  lemma StartHeardKept(s: System)
    requires Inv(s) && s.toLogin != [] && s.toLogin[0].LoginControllerStart?
    ensures Inv(LoginTurn(s))
  {
    hide OnInput, DefaultAnswer, Sanitize, PassedOn, Concat, OnPoll, OnReply, Count, Lines, Inputs, After;
    Popped(s.toLogin, IsStart);
    InputsPopped(s.toLogin);
    Pushed(s.fromLogin, ToUserPrompt("enter username"), IsPrompt);
    Pushed(s.fromLogin, ToUserPrompt("enter username"), IsEnd);
  }

  lemma LoginAnswers(l: Login, line: string)
    ensures var a := OnInput(l, line);
      Count(a.replies, IsPrompt) + Count(a.replies, IsEnd) == 1 && Count(a.replies, IsEnd) == |a.events|
  {
    hide Count;
    OnlyLast(OnInput(l, line).replies, IsPrompt);
    OnlyLast(OnInput(l, line).replies, IsEnd);
  }

  lemma AfterOneMore(heard: seq<string>, line: string)
    ensures var before := After(heard);
      var a := OnInput(before.login, line);
      After(heard + [line]) == LoginRun(a.next, before.events + a.events)
  {
    hide OnInput;
    assert (heard + [line])[..|heard|] == heard;
  }

  lemma LoginHearsKept(s: System)
    requires Inv(s) && s.toLogin != [] && s.toLogin[0].LoginInput?
    ensures Inv(LoginTurn(s))
  {
    hide OnInput, DefaultAnswer, Sanitize, PassedOn, Concat, OnPoll, OnReply, Count, Lines, Inputs, After;
    var line := s.toLogin[0].line;
    var a := OnInput(s.login, line);
    Popped(s.toLogin, IsStart);
    InputsPopped(s.toLogin);
    CountAppend(s.fromLogin, a.replies, IsPrompt);
    CountAppend(s.fromLogin, a.replies, IsEnd);
    LoginAnswers(s.login, line);
    AfterOneMore(s.past.loginHeard, line);
  }

  lemma ShutdownKept(s: System)
    requires Inv(s) && Enabled(s, Shutdown)
    ensures Inv(Next(s, Shutdown))
  {
    hide OnInput, DefaultAnswer, Sanitize, PassedOn, Concat, OnPoll, OnReply, Lines, After, Count;
  }

  lemma DefaultExitsKept(s: System)
    requires Inv(s) && Enabled(s, DefaultExits)
    ensures Inv(Next(s, DefaultExits))
  {
    hide OnInput, DefaultAnswer, Sanitize, PassedOn, Concat, OnPoll, OnReply, Lines, After, Count;
  }

  lemma DefaultPrompts(line: string)
    ensures Count(DefaultAnswer(line), IsPrompt) == 1 && Count(DefaultAnswer(line), IsEnd) == 0
  {
    hide Count;
    OnlyLast(DefaultAnswer(line), IsPrompt);
    OnlyLast(DefaultAnswer(line), IsEnd);
  }

  lemma DefaultHearsKept(s: System)
    requires Inv(s) && Enabled(s, DefaultHears)
    ensures Inv(Next(s, DefaultHears))
  {
    hide OnInput, DefaultAnswer, Sanitize, PassedOn, Concat, OnPoll, OnReply, Lines, After;
    DefaultPrompts(s.toDefault[0]);
    CountAppend(s.fromDefault, DefaultAnswer(s.toDefault[0]), IsPrompt);
    CountAppend(s.fromDefault, DefaultAnswer(s.toDefault[0]), IsEnd);
  }

  /** Every turn keeps the invariant. */
  lemma TurnKept(s: System, t: Turn)
    requires Inv(s) && Enabled(s, t)
    ensures Inv(Next(s, t))
  {
    hide Inv, SelfTurn, ShownTurn, FromConnectionTurn, FromLoginTurn, LoginTurn, Dispatched, DefaultAnswer;
    match t
    case Welcomed => WelcomedKept(s);
    case Self(look) => if s.self[0].FromUserGetInput? { PollKept(s, look); } else { SelfGoodbyeKept(s, look); }
    case Shown => ShownKept(s);
    case Shutdown => ShutdownKept(s);
    case ConnectionExits => ConnectionExitsKept(s);
    case FromConnection => if s.toCommand[0].PerformWelcome? { WelcomeTakenKept(s); } else { LineTakenKept(s); }
    case FromLogin => FromLoginKept(s);
    case FromDefault => FromDefaultKept(s);
    case CommandExits => CommandExitsKept(s);
    case LoginHears => if s.toLogin[0].LoginControllerStart? { StartHeardKept(s); } else { LoginHearsKept(s); }
    case LoginExits => LoginExitsKept(s);
    case DefaultHears => DefaultHearsKept(s);
    case DefaultExits => DefaultExitsKept(s);
  }

  // ---------------------------------------------------------------------------
  // Runs
  // ---------------------------------------------------------------------------

  predicate Runs(s: System, turns: seq<Turn>)
    decreases |turns|
  {
    turns == [] || (Enabled(s, turns[0]) && Runs(Next(s, turns[0]), turns[1..]))
  }

  function Reached(s: System, turns: seq<Turn>): System
    requires Runs(s, turns)
    decreases |turns|
  {
    if turns == [] then s else Reached(Next(s, turns[0]), turns[1..])
  }

  lemma {:induction false} RunKept(s: System, turns: seq<Turn>)
    requires Inv(s) && Runs(s, turns)
    ensures Inv(Reached(s, turns))
    decreases |turns|
  {
    hide Inv, Enabled, Next;
    if turns != [] {
      TurnKept(s, turns[0]);
      RunKept(Next(s, turns[0]), turns[1..]);
    }
  }

  lemma InitialInv()
    ensures Inv(INITIAL)
  {
  }

  /** Every reachable state satisfies the invariant. */
  lemma Always(turns: seq<Turn>)
    requires Runs(INITIAL, turns)
    ensures Inv(Reached(INITIAL, turns))
  {
    hide *;
    InitialInv();
    RunKept(INITIAL, turns);
  }

  // ---------------------------------------------------------------------------
  // What follows for a user
  // ---------------------------------------------------------------------------

  /** In every reachable state the polls under way are the prompts handled less the goodbyes
      that polling has sent. */
  lemma PollsMatchPrompts(turns: seq<Turn>)
    requires Runs(INITIAL, turns)
    ensures var s := Reached(INITIAL, turns);
      Count(s.self, IsPoll) == s.past.prompted - s.past.hungUp
  {
    hide Reached, Count;
    Always(turns);
  }

  /** Polling never stalls: until a poll has sent a goodbye, a poll is under way, or a message that
      leads to a prompt and so to a poll. */
  lemma PollingGoesOn(turns: seq<Turn>)
    requires Runs(INITIAL, turns)
    ensures var s := Reached(INITIAL, turns);
      s.active != Nobody && s.past.hungUp == 0 ==>
        Count(s.self, IsPoll) + Count(s.toConnection, IsPrompt) + Count(s.fromLogin, IsPrompt) + Count(s.fromLogin, IsEnd)
        + Count(s.fromDefault, IsPrompt) + Count(s.toLogin, IsStart) > 0
  {
    hide Reached, Count;
    Always(turns);
  }

  /** Whenever a prompt, a poll or a line is in flight, or a login ends, the command actor has an
      active controller: neither its fallback prompt nor an exit to nobody can happen. */
  lemma NeverNobody(turns: seq<Turn>)
    requires Runs(INITIAL, turns)
    ensures var s := Reached(INITIAL, turns);
      Count(s.self, IsPoll) + Count(s.toConnection, IsPrompt) + Count(s.fromLogin, IsPrompt) + Count(s.fromLogin, IsEnd)
        + Count(s.fromDefault, IsPrompt) + |Lines(s.toCommand)| + |Inputs(s.toLogin)| + |s.toDefault| > 0
      ==> s.active != Nobody
  {
    hide Reached;
    Always(turns);
  }

  /** The lines each controller has heard, in the order they were typed. */
  lemma LinesInOrder(turns: seq<Turn>)
    requires Runs(INITIAL, turns)
    ensures var p := Reached(INITIAL, turns).past;
      p.loginHeard <= p.forLogin && p.defaultHeard <= p.forDefault && p.forLogin + p.forDefault <= p.typed
    ensures var p := Reached(INITIAL, turns).past;
      p.loginHeard <= p.typed
  {
    hide Reached, Lines, Inputs;
    Always(turns);
  }

  /** What is recorded is what was typed: the first line that is not empty as the name, the first
      such line after it as the text hashed, confirmed by an equal line after that. */
  lemma CredentialsAsTyped(turns: seq<Turn>) returns (u: nat, p: nat, c: nat)
    requires Runs(INITIAL, turns) && Reached(INITIAL, turns).past.events != []
    ensures var s := Reached(INITIAL, turns);
      && u < p < c < |s.past.typed|
      && (forall k | 0 <= k < p && k != u :: s.past.typed[k] == "")
      && s.past.typed[c] == s.past.typed[p] && (forall k | p < k < c :: s.past.typed[k] != s.past.typed[p])
      && s.past.typed[u] != "" && s.past.typed[p] != ""
      && s.past.events[0] == EventUserCreate(s.past.typed[u], s.past.typed[p])
  {
    hide Reached, Lines, Inputs, After, Count, Repeats;
    Always(turns);
    LinesInOrder(turns);
    var s := Reached(INITIAL, turns);
    u, p, c := Automaton(s.past.loginHeard);
    assert s.past.typed[..|s.past.loginHeard|] == s.past.loginHeard;
    assert forall k | 0 <= k < |s.past.loginHeard| :: s.past.typed[k] == s.past.loginHeard[k];
  }

  /** While the command actor lives, the controller that input goes to is alive and staying,
      exactly when the login has not ended twice. */
  lemma ActiveAlive(turns: seq<Turn>)
    requires Runs(INITIAL, turns)
    ensures var s := Reached(INITIAL, turns);
      s.commandLive ==>
        && (s.active == TheLogin ==> !Gone(s.loginLive, s.loginExit))
        && (s.active == TheDefault ==> (!Gone(s.defaultLive, s.defaultExit) <==> s.past.ends <= 1))
    ensures Reached(INITIAL, turns).past.ends <= |Reached(INITIAL, turns).past.events|
  {
    hide Reached, Count;
    Always(turns);
  }

  /** Nothing is left behind: whoever outlives the actor above has been told to exit. */
  lemma NobodyLeftBehind(turns: seq<Turn>)
    requires Runs(INITIAL, turns)
    ensures var s := Reached(INITIAL, turns);
      && (!s.connectionLive ==> Gone(s.commandLive, s.commandExit))
      && (!s.commandLive ==> Gone(s.loginLive, s.loginExit) && Gone(s.defaultLive, s.defaultExit))
  {
    hide Reached;
    Always(turns);
  }

  /** The welcome and each line heard cost exactly one prompt, shown or still to come. */
  lemma OnePromptPerLine(turns: seq<Turn>)
    requires Runs(INITIAL, turns)
    ensures var s := Reached(INITIAL, turns);
      Answers(s) == |s.past.loginHeard| + |s.past.defaultHeard| + (if s.active == Nobody then 0 else 1)
  {
    hide Reached, Answers;
    Always(turns);
  }

  /** The printable characters of the lines completed, with what is still being typed, are those read. */
  lemma CharactersKept(turns: seq<Turn>)
    requires Runs(INITIAL, turns)
    ensures var s := Reached(INITIAL, turns);
      && Sanitize(s.past.read) == Concat(s.past.lines) + Sanitize(s.connection.currentInput)
      && s.past.typed == PassedOn(s.past.lines)
  {
    hide Reached, Sanitize;
    Always(turns);
  }

  // ---------------------------------------------------------------------------
  // What a connection makes of what it reads
  // ---------------------------------------------------------------------------

  predicate IsGoodbye(m: SelfMessage) { m.GoodbyeConnection? }

  /** The connection is where its looks bring it, and has sent what they make it send. */
  ghost predicate Conversing(s: System) {
    var told := Converse(s.past.looks);
    && s.connection == told.next && s.past.answers == told.toSelf
    && s.past.lines == Completed(s.past.looks) && s.past.typed == Lines(told.toCommand)
    && s.past.hungUp == Count(s.past.answers, IsGoodbye)
  }

  lemma LineOfLooks(looks: seq<Look>, look: Look)
    ensures LineOf(Converse(looks).next, look) == Completes(looks, look)
    ensures Completed(looks + [look]) == Completed(looks) + Completes(looks, look)
  {
    Remembers(looks);
    assert (looks + [look])[..|looks|] == looks;
    hide Converse, Pending, Sanitize;
  }

  lemma PollConverses(s: System, look: Look)
    requires Conversing(s) && s.self != [] && s.self[0].FromUserGetInput?
    ensures Conversing(SelfTurn(s, look))
  {
    hide OnPoll, Converse, Completed, Completes, LineOf, TextOf, Lines, Count;
    var p := OnPoll(s.connection, look);
    OneMoreLook(s.past.looks, look);
    LineOfLooks(s.past.looks, look);
    LinesAppend(Converse(s.past.looks).toCommand, p.toCommand);
    Sends(s.connection, look);
    CountAppend(s.past.answers, p.toSelf, IsGoodbye);
    CountOne(p.toSelf[0], IsGoodbye);
  }

  ghost predicate SameTalk(s: System, n: System) {
    && n.connection == s.connection && n.past.looks == s.past.looks && n.past.answers == s.past.answers
    && n.past.lines == s.past.lines && n.past.typed == s.past.typed && n.past.hungUp == s.past.hungUp
  }

  lemma FromConnectionTalk(s: System)
    requires s.toCommand != []
    ensures SameTalk(s, FromConnectionTurn(s))
  {
    hide OnLine, OnWelcome;
  }

  lemma FromLoginTalk(s: System)
    requires s.fromLogin != []
    ensures SameTalk(s, FromLoginTurn(s))
  {
    hide OnReply;
  }

  lemma FromDefaultTalk(s: System)
    requires s.fromDefault != []
    ensures SameTalk(s, Dispatched(s.(fromDefault := s.fromDefault[1..]), OnReply(s.active, s.fromDefault[0])))
  {
    hide OnReply;
  }

  lemma LoginTalk(s: System)
    requires s.toLogin != []
    ensures SameTalk(s, LoginTurn(s))
  {
    hide OnInput;
  }

  lemma ShownTalk(s: System)
    requires s.toConnection != []
    ensures SameTalk(s, ShownTurn(s))
  {
  }

  lemma GoodbyeTalk(s: System, look: Look)
    requires s.self != [] && s.self[0].GoodbyeConnection?
    ensures SameTalk(s, SelfTurn(s, look))
  {
    hide OnPoll;
  }

  /** What the connection knows and has done concerns its polls alone. */
  lemma OtherTurns(s: System, t: Turn)
    requires Enabled(s, t) && (t.Self? ==> s.self[0].GoodbyeConnection?)
    ensures SameTalk(s, Next(s, t))
  {
    hide SelfTurn, ShownTurn, FromConnectionTurn, FromLoginTurn, LoginTurn, Dispatched, DefaultAnswer;
    match t
    case Self(look) => GoodbyeTalk(s, look);
    case Shown => ShownTalk(s);
    case FromConnection => FromConnectionTalk(s);
    case FromLogin => FromLoginTalk(s);
    case FromDefault => FromDefaultTalk(s);
    case LoginHears => LoginTalk(s);
    case _ =>
  }

  lemma TurnConverses(s: System, t: Turn)
    requires Conversing(s) && Enabled(s, t)
    ensures Conversing(Next(s, t))
  {
    if t.Self? && s.self[0].FromUserGetInput? {
      hide Conversing, SelfTurn;
      PollConverses(s, t.look);
    } else {
      hide Next, Converse, Completed, Lines, Count;
      OtherTurns(s, t);
    }
  }

  lemma {:induction false} RunConverses(s: System, turns: seq<Turn>)
    requires Conversing(s) && Runs(s, turns)
    ensures Conversing(Reached(s, turns))
    decreases |turns|
  {
    hide Conversing, Enabled, Next;
    if turns != [] {
      TurnConverses(s, turns[0]);
      RunConverses(Next(s, turns[0]), turns[1..]);
    }
  }

  lemma ConversingFirst()
    ensures Conversing(INITIAL)
  {
  }

  /** In every reachable state, each poll has sent a goodbye exactly when it found a break and the last poll before
      it that found anything had found one too, or when it completed a line that quits. The lines
      completed are those of the text read, cut after the looks with a line feed. */
  lemma HangsUpExactly(turns: seq<Turn>)
    requires Runs(INITIAL, turns)
    ensures var p := Reached(INITIAL, turns).past;
      && |p.answers| == |p.looks|
      && (forall k | 0 <= k < |p.looks| ::
            p.answers[k] == if HangsUp(p.looks[..k], p.looks[k]) then GoodbyeConnection else FromUserGetInput)
      && p.hungUp == Count(p.answers, IsGoodbye) && p.lines == Completed(p.looks)
  {
    hide Reached, Converse, HangsUp, Count, Completed, Lines;
    ConversingFirst();
    RunConverses(INITIAL, turns);
    var looks := Reached(INITIAL, turns).past.looks;
    OneAnswerEach(looks);
    forall k | 0 <= k < |looks|
      ensures Converse(looks).toSelf[k] == if HangsUp(looks[..k], looks[k]) then GoodbyeConnection else FromUserGetInput
    {
      LooksAnswered(looks, k);
    }
  }

  lemma {:induction false} NeverPassedOn(lines: seq<string>)
    ensures forall line <- PassedOn(lines) :: !Quits(line)
    decreases |lines|
  {
    if lines != [] { NeverPassedOn(lines[..|lines| - 1]); }
  }

  /** No line that quits ever reaches the command actor. */
  lemma NoQuitTyped(turns: seq<Turn>)
    requires Runs(INITIAL, turns)
    ensures forall line <- Reached(INITIAL, turns).past.typed :: !Quits(line)
  {
    hide Reached, Quits, PassedOn;
    Always(turns);
    NeverPassedOn(Reached(INITIAL, turns).past.lines);
  }

  /** While no line the login controller has heard after the confirmation consists of as many blanks as
      the password has characters, the login ends at most once, and whoever input goes to is alive
      and staying as long as the command actor is. */
  lemma OneEndKeepsActive(turns: seq<Turn>) returns (u: nat, p: nat, c: nat)
    requires Runs(INITIAL, turns)
    ensures Stages(Reached(INITIAL, turns).past.loginHeard, u, p, c)
    ensures var s := Reached(INITIAL, turns);
      var heard := s.past.loginHeard;
      (c == |heard| || Spaces(|heard[p]|) !in heard[c + 1..]) ==>
        && s.past.ends <= 1
        && (s.commandLive && s.active == TheLogin ==> !Gone(s.loginLive, s.loginExit))
        && (s.commandLive && s.active == TheDefault ==> !Gone(s.defaultLive, s.defaultExit))
  {
    hide Reached, Count, After, Stages, Spaces;
    u, p, c := RecordedOnce(Reached(INITIAL, turns).past.loginHeard);
    StageBounds(Reached(INITIAL, turns).past.loginHeard, u, p, c);
    Always(turns);
    ActiveAlive(turns);
  }

  // ---------------------------------------------------------------------------
  // Every history of lines can reach the login controller before its first end is handled
  // ---------------------------------------------------------------------------

  /** A line a user can type: printable, and not one that quits. */
  predicate Typeable(line: string) { Sanitize(line) == line && !Quits(line) }

  lemma {:induction false} PrintableStays(line: string)
    requires forall i | 0 <= i < |line| :: ' ' <= line[i] <= 127 as char
    ensures Sanitize(line) == line
  {
    if line != "" {
      PrintableStays(line[1..]);
      assert line == [line[0]] + line[1..];
    }
  }

  lemma {:induction false} RunsAppend(s: System, x: seq<Turn>, y: seq<Turn>)
    requires Runs(s, x) && Runs(Reached(s, x), y)
    ensures Runs(s, x + y) && Reached(s, x + y) == Reached(Reached(s, x), y)
    decreases |x|
  {
    hide Enabled, Next;
    if x == [] {
      assert x + y == y;
    } else {
      assert (x + y)[1..] == x[1..] + y;
      RunsAppend(Next(s, x[0]), x[1..], y);
    }
  }

  lemma OneTurn(s: System, t: Turn)
    requires Enabled(s, t)
    ensures Runs(s, [t]) && Reached(s, [t]) == Next(s, t)
  {
    hide Enabled, Next;
    assert [t][1..] == [];
  }

  lemma TurnFirst(s: System, t: Turn, rest: seq<Turn>)
    requires Enabled(s, t) && Runs(Next(s, t), rest)
    ensures Runs(s, [t] + rest) && Reached(s, [t] + rest) == Reached(Next(s, t), rest)
  {
    hide Enabled, Next;
    assert ([t] + rest)[1..] == rest;
  }

  /** The welcome has been handled and `typed` are the lines passed on so far, all for the login. */
  ghost predicate Staged(s: System, typed: seq<string>) {
    && Inv(s) && s.connectionLive && s.commandLive && s.defaultLive && s.active == TheLogin
    && s.fromDefault == [] && s.past.hungUp == 0 && s.past.typed == typed
  }

  /** A user is at the prompt. */
  ghost predicate AtPrompt(s: System, typed: seq<string>) {
    Staged(s, typed) && s.self == [FromUserGetInput] && s.connection.currentInput == ""
  }

  lemma OpeningRun(s1: System, s2: System, s3: System, s4: System, s5: System)
    requires Enabled(INITIAL, Welcomed) && s1 == Next(INITIAL, Welcomed)
    requires Enabled(s1, FromConnection) && s2 == Next(s1, FromConnection)
    requires Enabled(s2, LoginHears) && s3 == Next(s2, LoginHears)
    requires Enabled(s3, FromLogin) && s4 == Next(s3, FromLogin)
    requires Enabled(s4, Shown) && s5 == Next(s4, Shown)
    ensures var turns := [Welcomed, FromConnection, LoginHears, FromLogin, Shown];
      Runs(INITIAL, turns) && Reached(INITIAL, turns) == s5
  {
    hide *;
    OneTurn(s4, Shown);
    TurnFirst(s3, FromLogin, [Shown]);
    TurnFirst(s2, LoginHears, [FromLogin] + [Shown]);
    TurnFirst(s1, FromConnection, [LoginHears] + ([FromLogin] + [Shown]));
    TurnFirst(INITIAL, Welcomed, [FromConnection] + ([LoginHears] + ([FromLogin] + [Shown])));
    assert [Welcomed] + ([FromConnection] + ([LoginHears] + ([FromLogin] + [Shown])))
        == [Welcomed, FromConnection, LoginHears, FromLogin, Shown];
  }

  lemma Opening() returns (turns: seq<Turn>)
    ensures Runs(INITIAL, turns) && AtPrompt(Reached(INITIAL, turns), [])
  {
    turns := [Welcomed, FromConnection, LoginHears, FromLogin, Shown];
    var s1 := Next(INITIAL, Welcomed);
    var s2 := Next(s1, FromConnection);
    var s3 := Next(s2, LoginHears);
    var s4 := Next(s3, FromLogin);
    var s5 := Next(s4, Shown);
    assert s2.toCommand == [] && s2.toLogin == [LoginControllerStart] && s2.active == TheLogin && s2.loginLive;
    assert s3.fromLogin == [ToUserPrompt("enter username")];
    assert s4.toConnection == [ToUserPrompt("enter username")];
    assert s5.self == [FromUserGetInput];
    OpeningRun(s1, s2, s3, s4, s5);
    hide *;
    Always(turns);
  }

  lemma LineFeedDropped(line: string)
    requires Sanitize(line) == line
    ensures "" + (line + "\n") == line + "\n" && Sanitize(line + "\n") == line && '\n' in line + "\n"
  {
    SanitizeAppend(line, "\n");
    assert "\n"[1..] == "";
    assert Sanitize("\n") == "";
    assert (line + "\n")[|line|] == '\n';
  }

  lemma LinePolled(c: Connection, line: string)
    requires c.currentInput == "" && Typeable(line)
    ensures OnPoll(c, Fragment(line + "\n")) == Polled(Connection(0, ""), [FromUserGetInput], [OnUserInput(line)])
  {
    hide Sanitize, Quits;
    LineFeedDropped(line);
  }

  /** What a completed line changes. */
  lemma LineCompleted(s: System, line: string)
    requires s.self == [FromUserGetInput] && s.connection.currentInput == "" && Typeable(line)
    ensures var n := SelfTurn(s, Fragment(line + "\n"));
      && n.self == [FromUserGetInput] && n.connection.currentInput == "" && n.past.typed == s.past.typed + [line]
      && n.connectionLive == s.connectionLive && n.commandLive == s.commandLive && n.defaultLive == s.defaultLive
      && n.active == s.active && n.fromDefault == s.fromDefault && n.past.hungUp == s.past.hungUp
  {
    hide OnPoll, Lines, TextOf, LineOf, Typeable;
    LinePolled(s.connection, line);
    LinesOne(line);
    assert s.self[1..] == [];
  }

  lemma TypeLine(s: System, typed: seq<string>, line: string)
    requires AtPrompt(s, typed) && Typeable(line)
    ensures Enabled(s, Self(Fragment(line + "\n"))) && AtPrompt(Next(s, Self(Fragment(line + "\n"))), typed + [line])
  {
    LineCompleted(s, line);
    hide Inv, SelfTurn, FromConnectionTurn, FromLoginTurn, LoginTurn, ShownTurn, Dispatched, DefaultAnswer, Typeable;
    TurnKept(s, Self(Fragment(line + "\n")));
  }

  lemma {:induction false} TypeAll(history: seq<string>) returns (turns: seq<Turn>)
    requires forall line <- history :: Typeable(line)
    ensures Runs(INITIAL, turns) && AtPrompt(Reached(INITIAL, turns), history)
    decreases |history|
  {
    hide *;
    if history == [] {
      turns := Opening();
    } else {
      var before, line := history[..|history| - 1], history[|history| - 1];
      var first := TypeAll(before);
      var s, t := Reached(INITIAL, first), Self(Fragment(line + "\n"));
      TypeLine(s, before, line);
      OneTurn(s, t);
      RunsAppend(INITIAL, first, [t]);
      turns := first + [t];
      assert history == before + [line];
    }
  }

  /** Nothing is left for the command actor but what the login has been told. */
  ghost predicate Forwarded(s: System, typed: seq<string>) { Staged(s, typed) && s.toCommand == [] }

  lemma ForwardOne(s: System, typed: seq<string>)
    requires Staged(s, typed) && s.toCommand != []
    ensures Enabled(s, FromConnection)
    ensures var n := Next(s, FromConnection); Staged(n, typed) && |n.toCommand| < |s.toCommand|
  {
    TurnKept(s, FromConnection);
    assert s.toCommand[0] in s.toCommand;
    LineTaken(s);
    hide Accounted, Ordered, Answered, Recorded, Tended, Assembled, FromConnectionTurn, FromLoginTurn, LoginTurn, ShownTurn, SelfTurn, Dispatched, DefaultAnswer;
  }

  lemma {:induction false} ForwardAll(s: System, typed: seq<string>) returns (turns: seq<Turn>)
    requires Staged(s, typed)
    ensures Runs(s, turns) && Forwarded(Reached(s, turns), typed)
    decreases |s.toCommand|
  {
    hide Next, Enabled, Staged;
    if s.toCommand == [] {
      turns := [];
    } else {
      ForwardOne(s, typed);
      var rest := ForwardAll(Next(s, FromConnection), typed);
      OneTurn(s, FromConnection);
      RunsAppend(s, [FromConnection], rest);
      turns := [FromConnection] + rest;
    }
  }

  /** The login controller has heard every line. */
  ghost predicate Heard(s: System, typed: seq<string>) { Forwarded(s, typed) && s.toLogin == [] }

  lemma LoginIsLive(s: System)
    requires Tended(s) && s.commandLive && s.active == TheLogin
    ensures s.loginLive
  {
  }

  lemma StartingFields(s: System)
    requires s.toLogin != [] && s.toLogin[0].LoginControllerStart?
    ensures LoginTurn(s).toLogin == s.toLogin[1..] && LoginTurn(s).toCommand == s.toCommand
    ensures LoginTurn(s).past.typed == s.past.typed && LoginTurn(s).active == s.active
    ensures LoginTurn(s).commandLive == s.commandLive && LoginTurn(s).defaultLive == s.defaultLive
    ensures LoginTurn(s).connectionLive == s.connectionLive
    ensures LoginTurn(s).fromDefault == s.fromDefault && LoginTurn(s).past.hungUp == s.past.hungUp
  {
  }

  lemma InputFields(s: System)
    requires s.toLogin != [] && s.toLogin[0].LoginInput?
    ensures LoginTurn(s).toLogin == s.toLogin[1..] && LoginTurn(s).toCommand == s.toCommand
    ensures LoginTurn(s).past.typed == s.past.typed && LoginTurn(s).active == s.active
    ensures LoginTurn(s).commandLive == s.commandLive && LoginTurn(s).defaultLive == s.defaultLive
    ensures LoginTurn(s).connectionLive == s.connectionLive
    ensures LoginTurn(s).fromDefault == s.fromDefault && LoginTurn(s).past.hungUp == s.past.hungUp
  {
    hide OnInput;
  }

  /** What the login controller's turn leaves alone. */
  lemma HearingFields(s: System)
    requires s.toLogin != []
    ensures LoginTurn(s).toLogin == s.toLogin[1..] && LoginTurn(s).toCommand == s.toCommand
    ensures LoginTurn(s).past.typed == s.past.typed && LoginTurn(s).active == s.active
    ensures LoginTurn(s).commandLive == s.commandLive && LoginTurn(s).defaultLive == s.defaultLive
    ensures LoginTurn(s).connectionLive == s.connectionLive
    ensures LoginTurn(s).fromDefault == s.fromDefault && LoginTurn(s).past.hungUp == s.past.hungUp
  {
    hide *;
    if s.toLogin[0].LoginControllerStart? { StartingFields(s); } else { InputFields(s); }
  }

  lemma HearOne(s: System, typed: seq<string>)
    requires Forwarded(s, typed) && s.toLogin != []
    ensures Enabled(s, LoginHears)
    ensures var n := Next(s, LoginHears); Forwarded(n, typed) && |n.toLogin| < |s.toLogin|
  {
    hide Started, Accounted, Ordered, Answered, Recorded, Tended, Assembled, LoginTurn, FromConnectionTurn, FromLoginTurn, ShownTurn, SelfTurn, Dispatched, DefaultAnswer;
    LoginIsLive(s);
    HearingFields(s);
    TurnKept(s, LoginHears);
  }

  lemma {:induction false} HearAll(s: System, typed: seq<string>) returns (turns: seq<Turn>)
    requires Forwarded(s, typed)
    ensures Runs(s, turns) && Heard(Reached(s, turns), typed)
    decreases |s.toLogin|
  {
    hide Next, Enabled, Forwarded;
    if s.toLogin == [] {
      turns := [];
    } else {
      HearOne(s, typed);
      var rest := HearAll(Next(s, LoginHears), typed);
      OneTurn(s, LoginHears);
      RunsAppend(s, [LoginHears], rest);
      turns := [LoginHears] + rest;
    }
  }

  /** The replies of the login controller are being passed on. */
  ghost predicate Answering(s: System, heard: seq<string>) {
    && Inv(s) && s.connectionLive && s.commandLive && s.defaultLive && s.active != Nobody && s.fromDefault == [] && s.toLogin == []
    && s.past.hungUp == 0 && s.past.loginHeard == heard && s.past.typed == heard
  }

  lemma HeardAnswers(s: System, typed: seq<string>)
    requires Heard(s, typed)
    ensures Answering(s, typed)
  {
    hide Started, Accounted, Answered, Recorded, Tended, Assembled;
  }

  lemma AnswerOne(s: System, heard: seq<string>)
    requires Answering(s, heard) && s.fromLogin != []
    ensures Enabled(s, FromLogin)
    ensures var n := Next(s, FromLogin); Answering(n, heard) && |n.fromLogin| < |s.fromLogin|
  {
    TurnKept(s, FromLogin);
    ReplyTaken(s);
    hide Inv, FromLoginTurn, FromConnectionTurn, LoginTurn, ShownTurn, SelfTurn, Dispatched, DefaultAnswer;
  }

  lemma {:induction false} AnswerAll(s: System, heard: seq<string>) returns (turns: seq<Turn>)
    requires Answering(s, heard)
    ensures Runs(s, turns) && Answering(Reached(s, turns), heard) && Reached(s, turns).fromLogin == []
    decreases |s.fromLogin|
  {
    hide Next, Enabled, Answering;
    if s.fromLogin == [] {
      turns := [];
    } else {
      AnswerOne(s, heard);
      var rest := AnswerAll(Next(s, FromLogin), heard);
      OneTurn(s, FromLogin);
      RunsAppend(s, [FromLogin], rest);
      turns := [FromLogin] + rest;
    }
  }

  lemma AllEnded(s: System, heard: seq<string>)
    requires Answering(s, heard) && s.fromLogin == []
    ensures s.past.ends == |After(heard).events|
    ensures s.past.ends >= 2 <==> s.active == TheDefault && s.defaultExit
  {
    hide Started, Accounted, Ordered, Answered, Assembled, After;
  }

  lemma PromptIsStaged(s: System, typed: seq<string>)
    requires AtPrompt(s, typed)
    ensures Staged(s, typed)
  {
  }

  lemma AnsweringMeans(s: System, heard: seq<string>)
    requires Answering(s, heard)
    ensures s.commandLive && s.past.loginHeard == heard
  {
  }

  /** A run in which the login controller hears a whole history and its replies are all passed on. */
  lemma HeardRun(history: seq<string>) returns (turns: seq<Turn>)
    requires forall line <- history :: Typeable(line)
    ensures Runs(INITIAL, turns) && Answering(Reached(INITIAL, turns), history) && Reached(INITIAL, turns).fromLogin == []
  {
    hide *;
    var typing := TypeAll(history);
    var s1 := Reached(INITIAL, typing);
    PromptIsStaged(s1, history);
    var forwarding := ForwardAll(s1, history);
    var s2 := Reached(s1, forwarding);
    var hearing := HearAll(s2, history);
    var s3 := Reached(s2, hearing);
    HeardAnswers(s3, history);
    var answering := AnswerAll(s3, history);
    RunsAppend(s2, hearing, answering);
    RunsAppend(s1, forwarding, hearing + answering);
    RunsAppend(INITIAL, typing, forwarding + (hearing + answering));
    turns := typing + (forwarding + (hearing + answering));
  }

  /** For every history of typeable lines there is a run in which the login controller hears all of it
      and the command actor then handles every end. In it, the default controller ends up active and
      told to exit exactly when the history records two credentials or more. */
  lemma EveryHistoryHeard(history: seq<string>) returns (turns: seq<Turn>)
    requires forall line <- history :: Typeable(line)
    ensures Runs(INITIAL, turns)
    ensures var s := Reached(INITIAL, turns);
      && s.commandLive && s.past.loginHeard == history && s.past.ends == |After(history).events|
      && (s.active == TheDefault && s.defaultExit <==> |After(history).events| >= 2)
  {
    hide *;
    turns := HeardRun(history);
    AllEnded(Reached(INITIAL, turns), history);
    AnsweringMeans(Reached(INITIAL, turns), history);
  }

  /** What showing leaves alone. */
  lemma ShownFields(s: System)
    requires s.toConnection != []
    ensures ShownTurn(s).toConnection == s.toConnection[1..] && ShownTurn(s).fromLogin == s.fromLogin
    ensures ShownTurn(s).toLogin == s.toLogin && ShownTurn(s).fromDefault == s.fromDefault
    ensures ShownTurn(s).connectionLive == s.connectionLive && ShownTurn(s).commandLive == s.commandLive
    ensures ShownTurn(s).defaultLive == s.defaultLive && ShownTurn(s).active == s.active
    ensures ShownTurn(s).past == s.past.(prompted := ShownTurn(s).past.prompted)
  {
  }

  lemma ShowOne(s: System, heard: seq<string>)
    requires Answering(s, heard) && s.fromLogin == [] && s.toConnection != []
    ensures Enabled(s, Shown)
    ensures var n := Next(s, Shown); Answering(n, heard) && n.fromLogin == [] && |n.toConnection| < |s.toConnection|
  {
    hide Inv, SelfTurn, ShownTurn, FromConnectionTurn, FromLoginTurn, LoginTurn, Dispatched, DefaultAnswer;
    ShownFields(s);
    TurnKept(s, Shown);
  }

  lemma {:induction false} ShowAll(s: System, heard: seq<string>) returns (turns: seq<Turn>)
    requires Answering(s, heard) && s.fromLogin == []
    ensures Runs(s, turns) && Answering(Reached(s, turns), heard)
    ensures Reached(s, turns).fromLogin == [] && Reached(s, turns).toConnection == []
    decreases |s.toConnection|
  {
    hide Next, Enabled, Answering;
    if s.toConnection == [] {
      turns := [];
    } else {
      ShowOne(s, heard);
      var rest := ShowAll(Next(s, Shown), heard);
      OneTurn(s, Shown);
      RunsAppend(s, [Shown], rest);
      turns := [Shown] + rest;
    }
  }

  lemma PollsLeft(s: System, heard: seq<string>)
    requires Answering(s, heard) && s.fromLogin == [] && s.toConnection == []
    ensures Count(s.self, IsPoll) == |heard| + 1 && s.past.hungUp == 0 && s.past.typed == heard
  {
    hide Recorded, Tended, Assembled, Lines, Inputs, After;
    assert |s.past.typed| >= |s.past.loginHeard| + |s.past.defaultHeard|;
  }

  /** Polls pile up: every line heard leaves one more poll under way, and none of them ends before a
      goodbye. For every history of typeable lines there is a run after which one more poll is in flight
      than lines were typed. */
  lemma PollsPileUp(history: seq<string>) returns (turns: seq<Turn>)
    requires forall line <- history :: Typeable(line)
    ensures Runs(INITIAL, turns)
    ensures var s := Reached(INITIAL, turns);
      s.past.typed == history && s.past.hungUp == 0 && Count(s.self, IsPoll) == |history| + 1
  {
    hide *;
    var hearing := HeardRun(history);
    var s := Reached(INITIAL, hearing);
    var showing := ShowAll(s, history);
    PollsLeft(Reached(s, showing), history);
    RunsAppend(INITIAL, hearing, showing);
    turns := hearing + showing;
  }

  /** A session that loses its default controller: the command actor lives, input goes to the default
      controller, and that controller has been told to exit. */
  lemma DefaultTurnedOut() returns (turns: seq<Turn>)
    ensures Runs(INITIAL, turns)
    ensures var s := Reached(INITIAL, turns); s.commandLive && s.active == TheDefault && s.defaultExit
  {
    hide After, Runs, Reached, Sanitize;
    RecordedTwice();
    PrintableStays("ann");
    PrintableStays("pw");
    PrintableStays("  ");
    turns := EveryHistoryHeard(["ann", "pw", "pw", "  "]);
  }
}
