# PhoLight relay and audience-page model

PhoLight turns a room of phones into one light show. A host page picks
colours and effects. A relay server fans them out to every audience page.
Host access is gated by a shared password that lasts 24 hours.

This project models two parts of PhoLight in Dafny:

- **The relay server** (`server/index.js`). It is the class `Server.Relay`. Its fields are:
  - the current password and its expiry;
  - the ghost random draw that produced the password;
  - the ordered list of live connections, each with its host flag and its open/not-open transport state;
  - the next connection identity.

  Each event is one method that updates the fields and returns the sends it performs, in order. A send is a (target connection, outbound message) pair. The events are: a connection opening, a connection closing, a parsed message arriving, and the four password helpers. The `clients.forEach` loops are `while` loops with invariants, proved against the specification functions in `Registry`. The dispatch chain of the message handler is the function `Dispatch.Classify`.
- **The audience page** (`client/app.js`):
  - the colour decoder `hexToRgb` (`HexColor`);
  - the effect-name selection of `setLightEffect`, with its fallback to `static` (`Effects`);
  - the page's handler for `host-color` and `host-effect` messages (`Effects.OnMessage`).

Supporting modules:
- `Messages`: payloads, outbound messages, sends, and JavaScript truthiness and `||`.
- `Decimal`: the decimal numerals of template literals.
- `Password`: the word lists, the lifetime and the password format.
- `Scenarios`: short event sequences that check the handlers' contracts compose as the protocol intends. Examples: a wrong password is refused while the right one is accepted again and again; a colour reaches the two audience pages and not the host; a close recounts; a logout hands out the new password.

Inputs the program gets from its environment are parameters:
- `Date.now()` is `now: int`, in milliseconds.
- The three `Math.random()` choices of a password are a `Password.Draw`: the adjective index, the noun index and the number offset.

Two facts about the code that a reader of the protocol might not expect:
- The participant count is re-published only when a connection opens or closes, not when a role changes (login, logout, `set-host`). `Server.Relay.HandleMessage` states that no message it sends is a participant count.
- `clients` keeps connections in the order they opened, and every fan-out follows that order. The model keeps that order.

The rows below marked "corrected" state the evidently intended behaviour of the two entries of "## Findings"; the source as written differs on the inputs named there.

## Model

| member | source | states |
|---|---|---|
| Messages.Truthy | server/index.js:72 | a string field is truthy exactly when it is present and non-empty, as for `!password`, `data.color` and `data.effect` |
| Messages.Or | server/index.js:173 | JavaScript's `or` of a field and a fallback is the field when it is truthy and the fallback otherwise, so it is truthy whenever the fallback is, as for the default mode 'static' of a colour frame |
| Password.Generate | server/index.js:43-52 | the password is one of the ten adjectives, then one of the ten nouns, then a three-digit decimal number from 100 to 999, with no separator |
| Password.WellFormedNonEmpty | server/index.js:43-52 | a password of that format is at least three characters long and ends in a digit, so it is always truthy |
| Decimal.ValueOfFromNat | server/index.js:51 | the decimal numeral a template literal writes for a number reads back as that number |
| Decimal.ThreeDigits | server/index.js:46 | every number from 100 to 999 is written with exactly three digits |
| Decimal.FromNat | client/app.js:107 | a numeral is non-empty, all digits, and has no leading zero |
| Server.Relay.constructor | server/index.js:30-36 | at start: no connections, and the password of the given draw, expiring 24 hours after `now` |
| Server.Relay.InitializePassword | server/index.js:58-63 | the password becomes the one generated from the draw, and the expiry becomes `now` plus 86400000 ms |
| Server.Relay.ValidatePassword | server/index.js:71-84 | accepts exactly the current password, and only when `now` is not past the expiry; an absent, empty or different candidate changes nothing, even after expiry; an expired match rotates the password and its expiry and is refused; an accepted match changes nothing, so it is accepted again |
| Server.Relay.GenerateNewPassword | server/index.js:90-93 | rotates the password and its expiry and returns the new current password |
| Server.Relay.IndexOf | server/index.js:206 | the position of the first entry with the identity, or -1 exactly when the identity is not in the list |
| Server.Relay.BroadcastParticipantCount | server/index.js:219-232 | one participant-count message per open entry, hosts included, in list order; the count is the number of non-host entries |
| Server.Relay.SendToAudience | server/index.js:176-181 | the message goes to exactly the open non-host entries, in list order |
| Server.Relay.Connect | server/index.js:102-108 | appends one new non-host, open entry with a fresh identity at the end of the list; the count rises by one; the new count goes to every open entry |
| Server.Relay.Close | server/index.js:205-212 | removes exactly the entry of the identity, keeping the order of the rest, or changes nothing if the identity is absent; the count drops by one unless the removed entry was a host; the recount goes to every open entry still there |
| Server.Relay.SetReadyState | server/index.js:177 | the transport moves one connection in or out of the OPEN state and nothing else changes |
| Server.Relay.HandleLogin | server/index.js:119-138 | success sets the sender's host flag and replies "Login successful" to the sender alone; failure replies "Invalid or expired password" and leaves the roles alone; the password changes only on an expired match |
| Server.Relay.HandleLogout | server/index.js:151-162 | a host has its flag cleared, the password rotates and the host is sent the new current password; a non-host changes nothing and is sent nothing |
| Server.Relay.HandleClaimHost | server/index.js:165-169 | `set-host` sets the sender's host flag with no check |
| Server.Relay.HandleMessage | server/index.js:114-199 | per dispatched action: the login, logout and set-host effects above; `request-password` replies with the current password and changes nothing; a colour or an effect goes to exactly the open audience entries, whatever the sender's role; anything else changes nothing and sends nothing; for the frame `null` this is the corrected behaviour (as written that frame throws, first row of "## Findings"); no participant count is ever sent |
| Dispatch.Classify | server/index.js:116-198 | for every payload: non-objects and unknown types are ignored; a login frame carries its own `password` field; `request-password`, `host-logout` and `set-host` select their actions whatever else the frame holds; a colour needs a truthy `color` and relays that colour with its own `mode` when truthy and "static" otherwise; an effect needs a truthy `effect` and a truthy `color` and relays both; for the frame `null` this is the corrected behaviour |
| Dispatch.ClassifyAsWritten | server/index.js:116-119 | as written, exactly the frame `null` escapes the handler as an exception, and every other payload is dispatched as `Dispatch.Classify` says |
| Dispatch.ClassifyRequest | server/index.js:119-198 | every action a page can request is what the server dispatches for the frame of that request |
| Dispatch.ColorModeDefault | server/index.js:173 | a colour frame with a missing or empty mode is relayed in "static" mode |
| Dispatch.NullPayloadThrows | server/index.js:116-119 | as written, the frame `null` throws out of the handler, while unparseable text is dropped |
| Registry.CountNonHost | server/index.js:221 | the participant count is at most the number of connections |
| Registry.CountNonHostAppend | server/index.js:221 | the count of non-host entries adds up over a concatenation |
| Registry.CountNonHostRemove | server/index.js:205-221 | removing one entry lowers the non-host count by one, or by nothing when the entry was a host |
| Registry.OpenIdsMembers | server/index.js:227-231 | an identity is broadcast to exactly when some entry with it is open |
| Registry.AudienceIdsMembers | server/index.js:176-181 | an identity is in the audience exactly when some entry with it is open and not a host |
| Registry.HostNeverInAudience | server/index.js:177 | a host never receives the colours and effects it relays |
| Registry.AudienceIdsDistinct | server/index.js:176-181 | no audience connection receives a fan-out twice |
| Registry.WithoutAt | server/index.js:206-207 | removing an identity splices out its single entry and keeps the order of the rest |
| Registry.WithoutAbsent | server/index.js:207 | removing an absent identity changes nothing |
| Registry.WithRoleAt | server/index.js:119-169 | changing the role of an identity rewrites exactly its entry |
| Registry.RemovePreservesIds | server/index.js:207 | a splice keeps identities distinct and below the next identity |
| HexColor.StripHash | client/app.js:102 | removes one character when the text has a '#' and leaves text without one unchanged |
| HexColor.StripHashFirstOnly | client/app.js:102 | only the first '#' is removed, wherever it stands |
| HexColor.HexValue | client/app.js:103 | the `parseInt(…, 16)` value of k hex digits is below 16^k |
| HexColor.HexValueAppend | client/app.js:103 | the hex value of a concatenation is the value of the first part shifted past the second |
| HexColor.Channels | client/app.js:104-106 | each channel is below 256, and the three recombine to the 24-bit value |
| HexColor.ChannelsUnique | client/app.js:104-106 | the channels of a 24-bit value are its three bytes |
| HexColor.RgbText | client/app.js:107 | the text is three decimal numerals joined by single commas with no spaces, and it reads back as the channels it was made from |
| HexColor.HexToRgb | client/app.js:101-108 | the decoded text reads back as three numbers from 0 to 255 that are the three bytes of the hex value of the digits left once the first '#' is removed |
| HexColor.HexToRgbBytes | client/app.js:101-108 | for six hex digits, with or without a leading '#', the result is the text of the values of the three two-digit bytes, and both forms agree |
| Effects.Lookup | client/app.js:115-289 | exactly the seven effect names find an effect of the table, and the effect found has that name |
| Effects.SetLightEffect | client/app.js:296-302 | corrected (second row of "## Findings"): a listed name selects the effect of that name; any other name, or no name (the default argument), selects "static"; as written, the twelve inherited Object.prototype keys do not fall back |
| Effects.SetLightEffectAsWritten | client/app.js:297-301 | as written, exactly the inherited Object.prototype keys reach the prototype member of that key; every other name selects what the corrected selection selects |
| Effects.SelectByName | client/app.js:296-302 | each effect is selected by its own name |
| Effects.AsWrittenAgrees | client/app.js:297-301 | as written, the selection agrees with the intended one on every name that is not an inherited object key |
| Effects.InheritedKeySkipsFallback | client/app.js:297-301 | as written, the name "toString" finds an Object.prototype member instead of falling back to "static" |
| Effects.OnMessage | client/app.js:309-327 | payloads that are not objects and messages of other types select no effect |
| Effects.ServerColorIsStatic | client/app.js:314-317 | a colour message as the server sends it has no `effect` field, so its `mode` is ignored and the page always shows a static colour |
| Effects.ServerEffectSelects | client/app.js:320-323 | corrected (second row of "## Findings"): an effect message runs the named effect, or "static" for an unknown name; as written, an inherited Object.prototype key does not fall back |
| Effects.OtherMessagesIgnored | client/app.js:309-327 | every other message the server sends leaves the display alone |

## Left out

- Express static hosting, the HTTP listener, the WebSocket server construction and all console output (server/index.js:7-27). These are I/O; the transport appears only as each connection's `open` flag and as the returned sends.
- Connection objects are identified by a natural-number identity handed out by the relay. Object identity in the source is not modelled as such, and no two live connections share an identity.
- The rule that only registered connections deliver messages is a precondition of `Server.Relay.HandleMessage`. The transport guarantees it: a socket's `message` handler exists only after `connection` has run.
- One `now` stands for every clock read of an event. On an expired match the source reads `Date.now()` twice: for the expiry test (server/index.js:77) and again for the new expiry inside `initializePassword` (server/index.js:60). Server.Relay.ValidatePassword, Server.Relay.HandleLogin and Server.Relay.HandleMessage use the same `now` for both, so the new expiry is 86400000 ms after the `now` of the test; the time that passes between the two reads is not modelled.
- `Date.now()` and `Math.random()` are parameters. The bounds a `Math.floor(Math.random() * k)` choice can take are `Password.ValidDraw`.
- Server.Relay.GenerateNewPassword: does not state that the new password differs from the old one, because independent random choices can repeat it.
- JSON parsing is reduced to three outcomes: unparseable, the value `null`, and an object whose fields are optional strings. Fields holding numbers, booleans or objects are not modelled, and neither are non-object values other than `null` (numbers, strings, arrays).
- Sending never fails in the model. The source has no error handling around `send`, so it has no failure behaviour to state.
- Concurrency: the event loop runs each handler to completion, so every event is one method call.
- `client/host.js` is not part of this model. It is DOM updates, reconnection timers, QR drawing and script loading.
- From `client/app.js`: the effect bodies (timers, trigonometry, random flicker writing styles), fullscreen handling and user-agent detection. `Effects.Effect` names which entry of the table runs, not what it draws.
- HexColor.HexToRgb: covers only inputs with at most six hex digits once the first '#' is gone. Longer or non-hex input would need JavaScript's `parseInt` prefix parsing and the NaN/Int32 conversions of the bitwise operators. For such inputs (0 <= v < 2^24), `>> k` is floor division by 2^k and `& 255` is remainder modulo 256, exactly.
- The `colour` argument that `setLightEffect` passes on is not modelled, since only the effect bodies read it.

## Findings

| source | as written | input that shows it | evidently intended | confidence | as-written member | corrected member |
|---|---|---|---|---|---|---|
| server/index.js:116-119 | `data.type` is read outside the `try` around `JSON.parse`, so a frame that parses to `null` throws a TypeError out of the `message` handler | the text frame `null` | every frame that is not a usable object is dropped silently, as unparseable text is | high (not executed) | Dispatch.NullPayloadThrows | Dispatch.Classify |
| client/app.js:297-301 | `lightEffects[effect]` also finds members inherited from Object.prototype, so those names skip the fallback to `static` and call a prototype function with the colour | a `host-effect` message with effect `"toString"` | any name that is not one of the seven effects shows the static colour | high (not executed) | Effects.InheritedKeySkipsFallback | Effects.SetLightEffect |
