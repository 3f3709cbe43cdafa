/** The command actor and the default controller. */
module CommandActors {
  import opened Messages

  /** Whom the command actor passes input to. */
  datatype Controller = Nobody | TheLogin | TheDefault

  /** What one message makes the command actor do; `exits` is told to shut down. */
  datatype Dispatch = Dispatch(active: Controller, toConnection: seq<Reply>, toLogin: seq<ToLogin>,
                               toDefault: seq<string>, exits: Controller)

  function OnWelcome(): Dispatch {
    Dispatch(TheLogin, [], [LoginControllerStart], [], Nobody)
  }

  function OnLine(active: Controller, line: string): Dispatch {
    match active
    case Nobody => Dispatch(active, [ToUserPrompt(DEFAULT_PROMPT)], [], [], Nobody)
    case TheLogin => Dispatch(active, [], [LoginInput(line)], [], Nobody)
    case TheDefault => Dispatch(active, [], [], [line], Nobody)
  }

  function OnReply(active: Controller, r: Reply): Dispatch {
    if r.LoginControllerEnd? then Dispatch(TheDefault, [ToUserPrompt(DEFAULT_PROMPT)], [], [], active)
    else Dispatch(active, [r], [], [], Nobody)
  }

  class CommandActor {
    var activeController: Controller
    /** Messages sent so far. */
    var toConnection: seq<Reply>
    var toLogin: seq<ToLogin>
    var toDefault: seq<string>

    twostate predicate Did(d: Dispatch)
      reads this
    {
      && activeController == d.active
      && toConnection == old(toConnection) + d.toConnection
      && toLogin == old(toLogin) + d.toLogin
      && toDefault == old(toDefault) + d.toDefault
    }

    method OnPerformWelcome()
      modifies this
      ensures Did(OnWelcome())
    {
      activeController := TheLogin;
      toLogin := toLogin + [LoginControllerStart];
    }

    method OnUserInput(line: string)
      modifies this
      ensures Did(OnLine(old(activeController), line))
    {
      if activeController == Nobody {
        PromptUser(DEFAULT_PROMPT);
      } else if activeController == TheLogin {
        toLogin := toLogin + [LoginInput(line)];
      } else {
        toDefault := toDefault + [line];
      }
    }

    method OnToUserPrompt(prompt: string)
      modifies this
      ensures Did(OnReply(old(activeController), ToUserPrompt(prompt)))
    {
      PromptUser(prompt);
    }

    method OnToUserEmit(emission: string)
      modifies this
      ensures Did(OnReply(old(activeController), ToUserEmit(emission)))
    {
      toConnection := toConnection + [ToUserEmit(emission)];
    }

    /** Yields the controller that is told to shut down. */
    method OnLoginControllerEnd() returns (exits: Controller)
      modifies this
      ensures Did(OnReply(old(activeController), LoginControllerEnd))
      ensures exits == OnReply(old(activeController), LoginControllerEnd).exits
    {
      exits := activeController;
      activeController := TheDefault;
      PromptUser(DEFAULT_PROMPT);
    }

    method PromptUser(prompt: string)
      modifies this`toConnection
      ensures toConnection == old(toConnection) + [ToUserPrompt(prompt)]
    {
      toConnection := toConnection + [ToUserPrompt(prompt)];
    }
  }

  const BANNER: string := "-=-=-=-=-=-=--=--==-==-=---=--=-==-==-=-=-=-===--="

  /** The default controller answers every line with one prompt. */
  function DefaultAnswer(line: string): seq<Reply> {
    if line == "help" then
      [ToUserEmit(BANNER), ToUserEmit("Primordia MUD Help\n"), ToUserEmit("exit or quit             quits the MUD"),
       ToUserEmit("help                     this message"), ToUserEmit(BANNER), ToUserEmit("\n"),
       ToUserPrompt(DEFAULT_PROMPT)]
    else if line != "" then [ToUserEmit("Unknown command: " + line), ToUserPrompt(DEFAULT_PROMPT)]
    else [ToUserPrompt(DEFAULT_PROMPT)]
  }
}
