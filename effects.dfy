/** The audience page's choice of light effect: the `lightEffects` table,
    `setLightEffect` with its fallback to "static", and the page's handler
    for messages from the server. */
module Effects {
  import opened Messages

  /** The seven entries of the `lightEffects` object. */
  datatype Effect = Static | Rainbow | Pulse | Strobe | Wave | Disco | Fire

  const EffectNames: seq<string> := ["static", "rainbow", "pulse", "strobe", "wave", "disco", "fire"]

  function Name(e: Effect): string
  {
    match e
    case Static => "static"
    case Rainbow => "rainbow"
    case Pulse => "pulse"
    case Strobe => "strobe"
    case Wave => "wave"
    case Disco => "disco"
    case Fire => "fire"
  }

  /** The own property of `lightEffects` with key `name`, if there is one. */
  function Lookup(name: string): (r: Option<Effect>)
    ensures r.Some? <==> name in EffectNames
    ensures r.Some? ==> Name(r.value) == name
  {
    if name == "static" then Some(Static)
    else if name == "rainbow" then Some(Rainbow)
    else if name == "pulse" then Some(Pulse)
    else if name == "strobe" then Some(Strobe)
    else if name == "wave" then Some(Wave)
    else if name == "disco" then Some(Disco)
    else if name == "fire" then Some(Fire)
    else None
  }

  /** setLightEffect(color, effect = 'static'), intended behaviour: the named
      effect when it is one of the seven, "static" otherwise. */
  function SetLightEffect(effect: Option<string>): (e: Effect)
    ensures effect.Some? && effect.value in EffectNames ==> Name(e) == effect.value
    ensures !(effect.Some? && effect.value in EffectNames) ==> e == Static
  {
    match effect
    case None => Static
    case Some(name) => if Lookup(name).Some? then Lookup(name).value else Static
  }

  /** Each effect is selected by its own name. */
  lemma SelectByName(e: Effect)
    ensures SetLightEffect(Some(Name(e))) == e
  {
  }

  // ---------------------------------------------------------------------
  // setLightEffect as written

  /** Keys that every object literal inherits from Object.prototype. */
  const InheritedKeys: set<string> :=
    {"constructor", "hasOwnProperty", "isPrototypeOf", "propertyIsEnumerable", "toLocaleString",
     "toString", "valueOf", "__proto__", "__defineGetter__", "__defineSetter__",
     "__lookupGetter__", "__lookupSetter__"}

  /** What `lightEffects[effect]` finds and then calls. */
  datatype Handler = Own(effect: Effect) | Inherited(key: string)

  /** `if (lightEffects[effect]) ... else lightEffects.static(color)` as
      written: the truthiness test also passes for inherited keys, so those
      names call an Object.prototype member instead of falling back. */
  function SetLightEffectAsWritten(effect: Option<string>): (h: Handler)
    ensures h.Inherited? <==> effect.Some? && effect.value in InheritedKeys
    ensures h.Inherited? ==> h.key == effect.value
    ensures h.Own? ==> h.effect == SetLightEffect(effect)
  {
    match effect
    case None => Own(Static)
    case Some(name) =>
      if Lookup(name).Some? then Own(Lookup(name).value)
      else if name in InheritedKeys then Inherited(name)
      else Own(Static)
  }

  /** The two agree except on inherited keys. */
  lemma AsWrittenAgrees(effect: Option<string>)
    requires !(effect.Some? && effect.value in InheritedKeys)
    ensures SetLightEffectAsWritten(effect) == Own(SetLightEffect(effect))
  {
  }

  /** An effect named "toString" shows no static colour as written. */
  lemma InheritedKeySkipsFallback()
    ensures SetLightEffectAsWritten(Some("toString")) == Inherited("toString")
    ensures SetLightEffect(Some("toString")) == Static
  {
  }

  // ---------------------------------------------------------------------
  // The page's message handler

  /** The effect the page runs for one payload, or None when it runs none
      (other types, and parse errors, which are caught). */
  function OnMessage(p: Payload): (r: Option<Effect>)
    ensures !p.Record? ==> r == None
    ensures p.Record? && p.kind != Some("host-color") && p.kind != Some("host-effect") ==> r == None
  {
    match p
    case Unparseable => None
    case NullValue => None
    case Record(kind, _, _, _, effect) =>
      if kind == Some("host-color") then Some(SetLightEffect(Some(Or(effect, "static"))))
      else if kind == Some("host-effect") then Some(SetLightEffect(effect))
      else None
  }

  /** A colour message as the server sends it carries no `effect` field, so
      its `mode` is never read and the page always shows a static colour. */
  lemma ServerColorIsStatic(color: string, mode: string)
    ensures OnMessage(Wire(HostColor(color, mode))) == Some(Static)
  {
  }

  /** An effect message runs the named effect, or "static" for an unknown name. */
  lemma ServerEffectSelects(effect: string, color: string)
    ensures OnMessage(Wire(HostEffect(effect, color))) ==
            Some(if effect in EffectNames then Lookup(effect).value else Static)
  {
  }

  /** Every other server message leaves the display alone. */
  lemma OtherMessagesIgnored(o: Outbound)
    requires !o.HostColor? && !o.HostEffect?
    ensures OnMessage(Wire(o)) == None
  {
  }
}
