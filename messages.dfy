/** Wire vocabulary shared by the relay server and the audience page:
    parsed inbound payloads, the server's outbound messages and the
    (target, message) sends an event produces. */
module Messages {

  datatype Option<+T> = None | Some(value: T)

  /** Identity of one live connection (object identity in the server). */
  type ConnId = nat

  /** JavaScript truthiness of an optional string field: present and non-empty. */
  predicate Truthy(f: Option<string>)
    ensures Truthy(f) <==> f.Some? && |f.value| > 0
  {
    f.Some? && f.value != ""
  }

  /** The JavaScript expression `field || fallback` on an optional string field. */
  function Or(f: Option<string>, fallback: string): (r: string)
    ensures Truthy(f) ==> r == f.value
    ensures !Truthy(f) ==> r == fallback
    ensures fallback != "" ==> r != ""
  {
    if Truthy(f) then f.value else fallback
  }

  /** The outcome of `JSON.parse` on one frame, reduced to the string fields
      that either side of the protocol reads. */
  datatype Payload =
    | Unparseable   // JSON.parse threw
    | NullValue     // the text `null`: parses, but has no properties to read
    | Record(kind: Option<string>, password: Option<string>, color: Option<string>,
             mode: Option<string>, effect: Option<string>)

  /** Messages the server sends. */
  datatype Outbound =
    | PasswordResponse(password: string)
    | LoginSuccess(message: string)
    | LoginError(message: string)
    | LogoutSuccess(newPassword: string)
    | ParticipantCount(count: nat)
    | HostColor(color: string, mode: string)
    | HostEffect(effect: string, color: string)

  /** One `send` call: the connection written to and the message written. */
  datatype Send = Send(target: ConnId, msg: Outbound)

  /** The payload a receiving page parses out of `JSON.stringify(o)`. */
  function Wire(o: Outbound): Payload
  {
    match o
    case PasswordResponse(p) => Record(Some("password-response"), Some(p), None, None, None)
    case LoginSuccess(_) => Record(Some("login-success"), None, None, None, None)
    case LoginError(_) => Record(Some("login-error"), None, None, None, None)
    case LogoutSuccess(_) => Record(Some("logout-success"), None, None, None, None)
    case ParticipantCount(_) => Record(Some("participant-count"), None, None, None, None)
    case HostColor(c, m) => Record(Some("host-color"), None, Some(c), Some(m), None)
    case HostEffect(e, c) => Record(Some("host-effect"), None, Some(c), None, Some(e))
  }

  /** The same message sent to each of `ids`, in order. */
  function SendAll(ids: seq<ConnId>, m: Outbound): (r: seq<Send>)
    ensures |r| == |ids|
    ensures forall i :: 0 <= i < |r| ==> r[i] == Send(ids[i], m)
  {
    seq(|ids|, i requires 0 <= i < |ids| => Send(ids[i], m))
  }

  lemma SendAllSnoc(ids: seq<ConnId>, x: ConnId, m: Outbound)
    ensures SendAll(ids + [x], m) == SendAll(ids, m) + [Send(x, m)]
  {
  }
}
