/** The login controller. */
module LoginControllers {
  import opened Messages

  datatype Login = Login(username: string, password: string)

  datatype Answer = Answer(next: Login, replies: seq<Reply>, events: seq<Event>)

  const SUPPRESS_ECHO: string := [0xFF as char, 0xFB as char, 0x01 as char]
  const ENABLE_ECHO: string := [0xFF as char, 0xFC as char, 0x01 as char]

  function Spaces(n: nat): (s: string)
    ensures |s| == n && forall i | 0 <= i < n :: s[i] == ' '
  {
    seq(n, _ => ' ')
  }

  function OnInput(l: Login, input: string): Answer {
    if l.username == "" then
      Answer(l.(username := input), [ToUserEmit(SUPPRESS_ECHO), ToUserPrompt("enter password")], [])
    else if l.password == "" then
      Answer(l.(password := input), [ToUserEmit(""), ToUserPrompt("confirm password")], [])
    else if l.password == input then
      Answer(l.(password := Spaces(|l.password|)),
             [ToUserEmit(ENABLE_ECHO), ToUserEmit(""), ToUserEmit("Welcome to Primordia " + l.username + "!"),
              ToUserEmit(""), LoginControllerEnd],
             [EventUserCreate(l.username, l.password)])
    else
      Answer(l, [ToUserEmit(""), ToUserEmit("Passwords don't match, please try again."),
                 ToUserEmit(SUPPRESS_ECHO), ToUserPrompt("enter password")], [])
  }

  /** What the start makes the controller reply. */
  function OnStarted(): seq<Reply> { [ToUserPrompt("enter username")] }

  class LoginController {
    var username: string
    var password: string
    /** Messages sent so far. */
    var replies: seq<Reply>
    var events: seq<Event>

    function State(): Login reads this { Login(username, password) }

    method OnStart()
      modifies this`replies
      ensures replies == old(replies) + OnStarted()
    {
      replies := replies + [ToUserPrompt("enter username")];
    }

    method OnUserInput(input: string)
      modifies this
      ensures var a := OnInput(old(State()), input);
        State() == a.next && replies == old(replies) + a.replies && events == old(events) + a.events
    {
      if username == "" {
        username := input;
        replies := replies + [ToUserEmit(SUPPRESS_ECHO)];
        replies := replies + [ToUserPrompt("enter password")];
      } else if password == "" {
        password := input;
        replies := replies + [ToUserEmit("")];
        replies := replies + [ToUserPrompt("confirm password")];
      } else if password == input {
        replies := replies + [ToUserEmit(ENABLE_ECHO)] + [ToUserEmit("")];
        replies := replies + [ToUserEmit("Welcome to Primordia " + username + "!")] + [ToUserEmit("")];
        var hashed := HashAndScrubPassword();
        events := events + [EventUserCreate(username, hashed)];
        replies := replies + [LoginControllerEnd];
      } else {
        replies := replies + [ToUserEmit("")] + [ToUserEmit("Passwords don't match, please try again.")];
        replies := replies + [ToUserEmit(SUPPRESS_ECHO)] + [ToUserPrompt("enter password")];
      }
    }

    /** Yields the text that is hashed and blanks the stored password. */
    method HashAndScrubPassword() returns (hashed: string)
      modifies this`password
      ensures hashed == old(password) && password == Spaces(|old(password)|)
    {
      hashed := password;
      for i := 0 to |password|
        invariant |password| == |hashed| && forall k | 0 <= k < i :: password[k] == ' '
      {
        password := password[i := ' '];
      }
    }
  }

  // ---------------------------------------------------------------------------
  // The controller as an automaton over everything it is told
  // ---------------------------------------------------------------------------

  datatype LoginRun = LoginRun(login: Login, events: seq<Event>)

  /** The controller after a history of inputs, and the credentials it has recorded. */
  function After(history: seq<string>): LoginRun
    decreases |history|
  {
    if history == [] then LoginRun(Login("", ""), [])
    else
      var before := After(history[..|history| - 1]);
      var a := OnInput(before.login, history[|history| - 1]);
      LoginRun(a.next, before.events + a.events)
  }

  /** One more record for every input equal to the blanked password. */
  function Repeats(username: string, blank: string, inputs: seq<string>): seq<Event>
    decreases |inputs|
  {
    if inputs == [] then []
    else
      Repeats(username, blank, inputs[..|inputs| - 1])
      + if inputs[|inputs| - 1] == blank then [EventUserCreate(username, blank)] else []
  }

  /** Where a history reaches the stages of a login; the length of the history where it does not. */
  predicate Stages(history: seq<string>, u: nat, p: nat, c: nat) {
    && u <= p <= c <= |history|
    && (forall k | 0 <= k < u :: history[k] == "") && (u < |history| ==> history[u] != "" && u < p)
    && (forall k | u < k < p :: history[k] == "") && (p < |history| ==> history[p] != "" && p < c)
    && (forall k | p < k < c :: history[k] != history[p]) && (c < |history| ==> history[c] == history[p])
  }

  function Expected(history: seq<string>, u: nat, p: nat, c: nat): LoginRun
    requires Stages(history, u, p, c)
  {
    var n := |history|;
    if u == n then LoginRun(Login("", ""), [])
    else if p == n then LoginRun(Login(history[u], ""), [])
    else if c == n then LoginRun(Login(history[u], history[p]), [])
    else
      var blank := Spaces(|history[p]|);
      LoginRun(Login(history[u], blank),
               [EventUserCreate(history[u], history[p])] + Repeats(history[u], blank, history[c + 1..]))
  }

  lemma NothingExpected(history: seq<string>)
    requires history == []
    ensures Stages(history, 0, 0, 0) && Expected(history, 0, 0, 0) == LoginRun(Login("", ""), [])
  {
  }

  function Clip(i: nat, n: nat): nat { if i > n then n else i }

  lemma StagesBefore(before: seq<string>, input: string, u: nat, p: nat, c: nat)
    requires Stages(before + [input], u, p, c)
    ensures Stages(before, Clip(u, |before|), Clip(p, |before|), Clip(c, |before|))
  {
    assert forall k | 0 <= k < |before| :: (before + [input])[k] == before[k];
  }

  lemma RepeatsOneMore(username: string, blank: string, inputs: seq<string>, input: string)
    ensures Repeats(username, blank, inputs + [input])
         == Repeats(username, blank, inputs) + if input == blank then [EventUserCreate(username, blank)] else []
  {
    assert (inputs + [input])[..|inputs|] == inputs;
  }

  lemma NoRepeats(username: string, blank: string)
    ensures Repeats(username, blank, []) == []
  {
  }

  /** How an input moves the controller, case by case. */
  lemma InputCases(l: Login, input: string)
    ensures l.username == "" ==> OnInput(l, input).next == l.(username := input) && OnInput(l, input).events == []
    ensures l.username != "" && l.password == "" ==> OnInput(l, input).next == l.(password := input) && OnInput(l, input).events == []
    ensures l.username != "" && l.password != "" && input != l.password ==> OnInput(l, input).next == l && OnInput(l, input).events == []
    ensures l.username != "" && l.password != "" && input == l.password ==>
      OnInput(l, input).next == l.(password := Spaces(|input|)) && OnInput(l, input).events == [EventUserCreate(l.username, input)]
  {
  }

  /** The stages before the last input, and what that input does there. */
  lemma NextStage(before: seq<string>, input: string, u: nat, p: nat, c: nat)
    requires Stages(before + [input], u, p, c)
    ensures var n := |before|;
      && Stages(before, Clip(u, n), Clip(p, n), Clip(c, n))
      && var was := Expected(before, Clip(u, n), Clip(p, n), Clip(c, n));
         var a := OnInput(was.login, input);
         Expected(before + [input], u, p, c) == LoginRun(a.next, was.events + a.events)
  {
    hide OnInput, Spaces, Repeats;
    var n, after := |before|, before + [input];
    assert after[n] == input && forall k | 0 <= k < n :: after[k] == before[k];
    StagesBefore(before, input, u, p, c);
    InputCases(Expected(before, Clip(u, n), Clip(p, n), Clip(c, n)).login, input);
    if c < n {
      assert after[c + 1..] == before[c + 1..] + [input];
      RepeatsOneMore(after[u], Spaces(|after[p]|), before[c + 1..], input);
    } else if c == n {
      NoRepeats(after[u], Spaces(|after[p]|));
      assert after[c + 1..] == [];
    }
  }

  /** The name is the first input that is not empty, the password the first such input after it,
      and the login is confirmed by the first later input equal to the password. After that the
      password reads as blanks, and every input equal to those blanks confirms once more. */
  lemma {:induction false} Automaton(history: seq<string>) returns (u: nat, p: nat, c: nat)
    ensures Stages(history, u, p, c) && After(history) == Expected(history, u, p, c)
    decreases |history|
  {
    hide OnInput, Spaces, Expected, Repeats;
    var n := |history|;
    if n == 0 {
      u, p, c := 0, 0, 0;
      NothingExpected(history);
    } else {
      var before, input := history[..n - 1], history[n - 1];
      u, p, c := Automaton(before);
      if u == n - 1 {
        if input == "" { u := n; }
        p, c := n, n;
      } else if p == n - 1 {
        if input == "" { p := n; }
        c := n;
      } else if c == n - 1 && input != history[p] {
        c := n;
      }
      NextStage(before, input, u, p, c);
      assert before + [input] == history;
    }
  }

  lemma {:induction false} RepeatsNone(username: string, blank: string, inputs: seq<string>)
    ensures Repeats(username, blank, inputs) == [] <==> blank !in inputs
    decreases |inputs|
  {
    if inputs != [] {
      RepeatsNone(username, blank, inputs[..|inputs| - 1]);
      assert inputs == inputs[..|inputs| - 1] + [inputs[|inputs| - 1]];
    }
  }

  lemma StageBounds(history: seq<string>, u: nat, p: nat, c: nat)
    requires Stages(history, u, p, c)
    ensures u <= p <= c <= |history| && (u < |history| ==> u < p) && (p < |history| ==> p < c)
  {
  }

  /** A login is recorded at most once exactly when no input after the confirmation consists of
      as many blanks as the password has characters. */
  lemma RecordedOnce(history: seq<string>) returns (u: nat, p: nat, c: nat)
    ensures Stages(history, u, p, c)
    ensures |After(history).events| <= 1 <==> c == |history| || Spaces(|history[p]|) !in history[c + 1..]
  {
    hide Stages, After, Spaces, Repeats;
    u, p, c := Automaton(history);
    StageBounds(history, u, p, c);
    if c < |history| {
      RepeatsNone(history[u], Spaces(|history[p]|), history[c + 1..]);
    }
  }

  /** Blanks typed after the confirmation are recorded as a second credential. */
  lemma RecordedTwice()
    ensures After(["ann", "pw", "pw", "  "]).events == [EventUserCreate("ann", "pw"), EventUserCreate("ann", "  ")]
  {
    var h := ["ann", "pw", "pw", "  "];
    assert h[..3] == ["ann", "pw", "pw"] && h[..3][..2] == ["ann", "pw"] && h[..2][..1] == ["ann"] && h[..1][..0] == [];
    assert After([]) == LoginRun(Login("", ""), []);
    assert After(["ann"]) == LoginRun(Login("ann", ""), []);
    assert After(["ann", "pw"]) == LoginRun(Login("ann", "pw"), []);
    assert Spaces(2) == "  ";
    assert After(["ann", "pw", "pw"]) == LoginRun(Login("ann", "  "), [EventUserCreate("ann", "pw")]);
  }

  // ---------------------------------------------------------------------------
  // What the user sees
  // ---------------------------------------------------------------------------

  /** What the next input is taken as. */
  datatype Use = Name | Password | Confirmation

  function UseOf(l: Login): Use {
    if l.username == "" then Name else if l.password == "" then Password else Confirmation
  }

  /** What a prompt asks for. */
  function Question(use: Use): string {
    match use
    case Name => "enter username"
    case Password => "enter password"
    case Confirmation => "confirm password"
  }

  /** Every reply so far, the start included. */
  function Told(history: seq<string>): seq<Reply>
    decreases |history|
  {
    if history == [] then OnStarted()
    else
      var before := history[..|history| - 1];
      Told(before) + OnInput(After(before).login, history[|history| - 1]).replies
  }

  lemma {:induction false} NameFirst(history: seq<string>)
    ensures After(history).login.username == "" ==> After(history).login.password == ""
    decreases |history|
  {
    if history != [] { NameFirst(history[..|history| - 1]); }
  }

  /** The user is asked for what the next input is taken as, except after an empty name or password, and after
      a confirmation that does not match: that asks for the password, but is still compared with the old one. */
  lemma AskedAsTaken(history: seq<string>, input: string)
    ensures var before := After(history).login;
      var a := OnInput(before, input);
      var last := a.replies[|a.replies| - 1];
      if a.events != [] then last == LoginControllerEnd
      else
        && last.ToUserPrompt?
        && (last.prompt == Question(UseOf(a.next)) <==> input != "" && UseOf(before) != Confirmation)
  {
    NameFirst(history);
    hide After;
  }

  /** The last echo command among some replies turned the echo off. */
  function EchoOff(replies: seq<Reply>): bool
    decreases |replies|
  {
    if replies == [] then false
    else
      var last := replies[|replies| - 1];
      if last == ToUserEmit(SUPPRESS_ECHO) then true
      else if last == ToUserEmit(ENABLE_ECHO) then false
      else EchoOff(replies[..|replies| - 1])
  }

  lemma EchoLast(x: seq<Reply>, r: Reply)
    ensures EchoOff(x + [r])
       <==> if r == ToUserEmit(SUPPRESS_ECHO) then true else if r == ToUserEmit(ENABLE_ECHO) then false else EchoOff(x)
  {
    assert (x + [r])[..|x + [r]| - 1] == x;
  }

  predicate Quiet(r: Reply) { r.ToUserEmit? ==> |r.emission| != 3 }

  lemma EchoKept(x: seq<Reply>, r: Reply)
    requires Quiet(r)
    ensures EchoOff(x + [r]) == EchoOff(x)
  {
    EchoLast(x, r);
  }

  lemma EchoOfTwo(x: seq<Reply>, p: Reply, q: Reply)
    requires Quiet(q)
    ensures EchoOff(x + [p, q]) == EchoOff(x + [p])
  {
    assert x + [p, q] == x + [p] + [q];
    hide EchoOff, Quiet;
    EchoKept(x + [p], q);
  }

  lemma EchoOfFive(x: seq<Reply>, p: Reply, q: Reply, r: Reply, s: Reply, t: Reply)
    requires Quiet(q) && Quiet(r) && Quiet(s) && Quiet(t)
    ensures EchoOff(x + [p, q, r, s, t]) == EchoOff(x + [p])
  {
    assert x + [p, q, r, s, t] == x + [p, q] + [r, s] + [t] && x + [p, q] + [r, s] == x + [p, q] + [r] + [s];
    hide EchoOff, Quiet;
    EchoOfTwo(x, p, q);
    EchoOfTwo(x + [p, q], r, s);
    EchoKept(x + [p, q], r);
    EchoKept(x + [p, q] + [r, s], t);
  }

  lemma EchoChanged(x: seq<Reply>)
    ensures EchoOff(x + [ToUserEmit(SUPPRESS_ECHO)]) && !EchoOff(x + [ToUserEmit(ENABLE_ECHO)])
  {
    EchoLast(x, ToUserEmit(SUPPRESS_ECHO));
    EchoLast(x, ToUserEmit(ENABLE_ECHO));
    assert SUPPRESS_ECHO[1] != ENABLE_ECHO[1];
  }

  lemma AfterStep(before: seq<string>, input: string)
    ensures After(before + [input]).login == OnInput(After(before).login, input).next
    ensures Told(before + [input]) == Told(before) + OnInput(After(before).login, input).replies
  {
    hide OnInput;
    assert (before + [input])[..|before|] == before;
  }

  /** What one input does to the echo. */
  lemma EchoOfAnswer(l: Login, input: string, x: seq<Reply>)
    ensures var a := OnInput(l, input);
      EchoOff(x + a.replies) == if UseOf(l) == Password then EchoOff(x) else a.events == []
  {
    var a := OnInput(l, input);
    hide EchoOff;
    EchoChanged(x);
    if UseOf(l) == Name {
      EchoOfTwo(x, a.replies[0], a.replies[1]);
    } else if UseOf(l) == Password {
      EchoOfTwo(x, a.replies[0], a.replies[1]);
      EchoKept(x, a.replies[0]);
    } else if l.password == input {
      EchoOfFive(x, a.replies[0], a.replies[1], a.replies[2], a.replies[3], a.replies[4]);
    } else {
      var y := x + [a.replies[0], a.replies[1]];
      EchoChanged(y);
      EchoOfTwo(y, a.replies[2], a.replies[3]);
      assert x + a.replies == y + [a.replies[2], a.replies[3]];
    }
  }

  /** The user types a password and its confirmation unseen: the echo is off after every input but those
      that record a credential, and on before the first. */
  lemma {:induction false} TypedUnseen(history: seq<string>)
    ensures history == [] ==> !EchoOff(Told(history))
    ensures history != [] ==>
      var before := history[..|history| - 1];
      EchoOff(Told(history)) <==> OnInput(After(before).login, history[|history| - 1]).events == []
    ensures UseOf(After(history).login) == Password ==> history != [] && EchoOff(Told(history))
    decreases |history|
  {
    if history != [] {
      var before, input := history[..|history| - 1], history[|history| - 1];
      assert history == before + [input];
      TypedUnseen(before);
      AfterStep(before, input);
      EchoOfAnswer(After(before).login, input, Told(before));
      InputCases(After(before).login, input);
      hide Told, After, EchoOff;
    }
  }
}
