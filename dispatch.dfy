/** The server's inbound dispatch chain: which action a parsed payload
    selects, with the field guards each branch applies. */
module Dispatch {
  import opened Messages

  /** The action the `message` handler takes for one payload. */
  datatype Command =
    | Login(candidate: Option<string>)      // host-login
    | RequestPassword                       // request-password
    | Logout                                // host-logout
    | ClaimHost                             // set-host (legacy, unchecked)
    | Color(color: string, mode: string)    // host-color with a truthy color
    | Effect(effect: string, color: string) // host-effect with truthy effect and color
    | Ignore                                // anything else: no state change, no send

  /** Every `type` the handler acts on. */
  const HandledKinds: set<string> :=
    {"host-login", "request-password", "host-logout", "set-host", "host-color", "host-effect"}

  /** The dispatch chain in order: the first branch whose `type` matches wins.
      A colour needs a truthy `color` (mode defaults to "static"); an effect
      needs a truthy `effect` and a truthy `color`. */
  function Classify(p: Payload): (c: Command)
    ensures !p.Record? ==> c == Ignore
    ensures p.Record? && (p.kind.None? || p.kind.value !in HandledKinds) ==> c == Ignore
    ensures c.Color? ==> c.color != "" && c.mode != ""
    ensures c.Effect? ==> c.effect != "" && c.color != ""
    ensures p.Record? && p.kind == Some("host-color") && !Truthy(p.color) ==> c == Ignore
    ensures p.Record? && p.kind == Some("host-effect") && !(Truthy(p.effect) && Truthy(p.color)) ==> c == Ignore
    ensures p.Record? && p.kind == Some("host-login") ==> c == Login(p.password)
    ensures p.Record? && p.kind == Some("request-password") ==> c == RequestPassword
    ensures p.Record? && p.kind == Some("host-logout") ==> c == Logout
    ensures p.Record? && p.kind == Some("set-host") ==> c == ClaimHost
    ensures p.Record? && p.kind == Some("host-color") && Truthy(p.color) ==> c == Color(p.color.value, Or(p.mode, "static"))
    ensures p.Record? && p.kind == Some("host-effect") && Truthy(p.effect) && Truthy(p.color) ==>
              c == Effect(p.effect.value, p.color.value)
  {
    match p
    case Unparseable => Ignore
    case NullValue => Ignore
    case Record(kind, password, color, mode, effect) =>
      if kind == Some("host-login") then Login(password)
      else if kind == Some("request-password") then RequestPassword
      else if kind == Some("host-logout") then Logout
      else if kind == Some("set-host") then ClaimHost
      else if kind == Some("host-color") && Truthy(color) then Color(color.value, Or(mode, "static"))
      else if kind == Some("host-effect") && Truthy(effect) && Truthy(color) then Effect(effect.value, color.value)
      else Ignore
  }

  /** The dispatch chain as written: `data.type` is read after the `try`
      around `JSON.parse`, so a payload of `null` throws a TypeError out of the
      handler instead of being dropped (None stands for that throw). */
  function ClassifyAsWritten(p: Payload): (r: Option<Command>)
    ensures r.None? <==> p.NullValue?
    ensures r.Some? ==> r.value == Classify(p)
  {
    if p.NullValue? then None else Some(Classify(p))
  }

  /** The frame text `null` escapes the handler as an exception, where every
      other payload that is not an object gets dropped. */
  lemma NullPayloadThrows()
    ensures ClassifyAsWritten(NullValue) == None
    ensures ClassifyAsWritten(Unparseable) == Some(Ignore)
    ensures Classify(NullValue) == Ignore
  {
  }

  /** The frames a host or audience page puts on the wire for each action;
      Ignore is sent as the informational `client-connect`. */
  function Request(c: Command): Payload
  {
    match c
    case Login(pw) => Record(Some("host-login"), pw, None, None, None)
    case RequestPassword => Record(Some("request-password"), None, None, None, None)
    case Logout => Record(Some("host-logout"), None, None, None, None)
    case ClaimHost => Record(Some("set-host"), None, None, None, None)
    case Color(color, mode) => Record(Some("host-color"), None, Some(color), Some(mode), None)
    case Effect(effect, color) => Record(Some("host-effect"), None, Some(color), None, Some(effect))
    case Ignore => Record(Some("client-connect"), None, None, None, None)
  }

  /** Commands whose string fields are all non-empty, as the pages send them. */
  predicate WellFormedCommand(c: Command)
  {
    match c
    case Color(color, mode) => color != "" && mode != ""
    case Effect(effect, color) => effect != "" && color != ""
    case _ => true
  }

  /** The server recovers exactly the action a page requested. */
  lemma ClassifyRequest(c: Command)
    requires WellFormedCommand(c)
    ensures Classify(Request(c)) == c
  {
  }

  /** A colour frame without a mode is relayed in "static" mode. */
  lemma ColorModeDefault(color: string, mode: Option<string>)
    requires color != "" && !Truthy(mode)
    ensures Classify(Record(Some("host-color"), None, Some(color), mode, None)) == Color(color, "static")
  {
  }
}
