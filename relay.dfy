/** The relay server: the shared password with its expiry, the ordered list
    of live connections, and the handlers for a connection opening, a
    connection closing and a parsed message arriving. Each handler runs to
    completion and returns the sends it performs, in order. */
module Server {
  import opened Messages
  import opened Registry
  import opened Dispatch
  import Password

  const LoginSuccessText: string := "Login successful"
  const LoginErrorText: string := "Invalid or expired password"

  class Relay {
    var currentPassword: string
    var passwordExpiry: int
    /** The random choices that produced the current password. */
    ghost var draw: Password.Draw
    var clients: seq<Conn>
    /** Identity given to the next connection that opens. */
    var nextId: ConnId

    ghost predicate Valid()
      reads this
    {
      Password.ValidDraw(draw) && currentPassword == Password.Generate(draw) &&
      DistinctIds(clients) && IdsBelow(clients, nextId)
    }

    /** Process start: no connections, and a first password valid for 24 hours. */
    constructor (now: int, d: Password.Draw)
      requires Password.ValidDraw(d)
      ensures Valid()
      ensures clients == []
      ensures currentPassword == Password.Generate(d) && passwordExpiry == now + Password.Duration
    {
      clients := [];
      nextId := 0;
      currentPassword := Password.Generate(d);
      passwordExpiry := now + Password.Duration;
      draw := d;
    }

    /** initializePassword: a fresh password that expires 24 hours from `now`. */
    method InitializePassword(now: int, d: Password.Draw)
      requires Valid() && Password.ValidDraw(d)
      modifies this`currentPassword, this`passwordExpiry, this`draw
      ensures Valid()
      ensures currentPassword == Password.Generate(d) && passwordExpiry == now + Password.Duration
    {
      currentPassword := Password.Generate(d);
      passwordExpiry := now + Password.Duration;
      draw := d;
    }

    /** validatePassword: accepts exactly the current, unexpired password. The
        clock is consulted only on a match; a match found expired rotates the
        password and is rejected. */
    method ValidatePassword(candidate: Option<string>, now: int, d: Password.Draw) returns (ok: bool)
      requires Valid() && Password.ValidDraw(d)
      modifies this`currentPassword, this`passwordExpiry, this`draw
      ensures Valid()
      ensures ok <==> candidate == Some(old(currentPassword)) && now <= old(passwordExpiry)
      ensures candidate == Some(old(currentPassword)) && now > old(passwordExpiry) ==>
                currentPassword == Password.Generate(d) && passwordExpiry == now + Password.Duration
      ensures !(candidate == Some(old(currentPassword)) && now > old(passwordExpiry)) ==>
                currentPassword == old(currentPassword) && passwordExpiry == old(passwordExpiry)
    {
      if !Truthy(candidate) || candidate.value != currentPassword {
        return false;
      }
      if now > passwordExpiry {
        InitializePassword(now, d);
        return false;
      }
      return true;
    }

    /** generateNewPassword: rotate, and return the new password. */
    method GenerateNewPassword(now: int, d: Password.Draw) returns (p: string)
      requires Valid() && Password.ValidDraw(d)
      modifies this`currentPassword, this`passwordExpiry, this`draw
      ensures Valid()
      ensures p == currentPassword
      ensures currentPassword == Password.Generate(d) && passwordExpiry == now + Password.Duration
    {
      InitializePassword(now, d);
      p := currentPassword;
    }

    /** clients.indexOf: position of the first entry of `id`, or -1. */
    method IndexOf(id: ConnId) returns (k: int)
      ensures -1 <= k < |clients|
      ensures k >= 0 ==> clients[k].id == id && forall j :: 0 <= j < k ==> clients[j].id != id
      ensures k == -1 <==> !Registered(clients, id)
    {
      k := 0;
      while k < |clients|
        invariant 0 <= k <= |clients|
        invariant forall j :: 0 <= j < k ==> clients[j].id != id
      {
        if clients[k].id == id {
          return;
        }
        k := k + 1;
      }
      k := -1;
    }

    /** The `clients.forEach` of broadcastParticipantCount: the count of
        non-host entries, sent to every OPEN entry, hosts included. */
    method BroadcastParticipantCount() returns (sends: seq<Send>)
      ensures sends == SendAll(OpenIds(clients), ParticipantCount(CountNonHost(clients)))
    {
      var m := ParticipantCount(CountNonHost(clients));
      sends := [];
      var i := 0;
      while i < |clients|
        invariant 0 <= i <= |clients|
        invariant sends == SendAll(OpenIds(clients[..i]), m)
      {
        assert clients[..i + 1][..i] == clients[..i];
        if clients[i].open {
          SendAllSnoc(OpenIds(clients[..i]), clients[i].id, m);
          sends := sends + [Send(clients[i].id, m)];
        }
        i := i + 1;
      }
      assert clients[..i] == clients;
    }

    /** The `clients.forEach` of the colour and effect branches: `m` sent to
        every OPEN entry whose `isHost` is false, in list order. */
    method SendToAudience(m: Outbound) returns (sends: seq<Send>)
      ensures sends == SendAll(AudienceIds(clients), m)
    {
      sends := [];
      var i := 0;
      while i < |clients|
        invariant 0 <= i <= |clients|
        invariant sends == SendAll(AudienceIds(clients[..i]), m)
      {
        assert clients[..i + 1][..i] == clients[..i];
        if !clients[i].isHost && clients[i].open {
          SendAllSnoc(AudienceIds(clients[..i]), clients[i].id, m);
          sends := sends + [Send(clients[i].id, m)];
        }
        i := i + 1;
      }
      assert clients[..i] == clients;
    }

    /** The `connection` handler: a new audience entry at the end of the
        list, then the participant count to everyone open. */
    method Connect() returns (id: ConnId, sends: seq<Send>)
      requires Valid()
      modifies this
      ensures Valid()
      ensures id == old(nextId) && !Registered(old(clients), id)
      ensures clients == old(clients) + [Conn(id, false, true)]
      ensures currentPassword == old(currentPassword) && passwordExpiry == old(passwordExpiry)
      ensures CountNonHost(clients) == CountNonHost(old(clients)) + 1
      ensures sends == SendAll(OpenIds(clients), ParticipantCount(CountNonHost(clients)))
    {
      id := nextId;
      nextId := nextId + 1;
      assert (clients + [Conn(id, false, true)])[..|clients|] == clients;
      clients := clients + [Conn(id, false, true)];
      sends := BroadcastParticipantCount();
    }

    /** The `close` handler: remove the entry of `id` if there is one, then
        the participant count to everyone still open. */
    method Close(id: ConnId) returns (sends: seq<Send>)
      requires Valid()
      modifies this
      ensures Valid()
      ensures nextId == old(nextId)
      ensures currentPassword == old(currentPassword) && passwordExpiry == old(passwordExpiry)
      ensures clients == Without(old(clients), id)
      ensures Registered(old(clients), id) ==>
                exists k :: 0 <= k < |old(clients)| && old(clients)[k].id == id &&
                            clients == old(clients)[..k] + old(clients)[k + 1..]
      ensures !Registered(old(clients), id) ==> clients == old(clients)
      ensures Registered(old(clients), id) ==>
                CountNonHost(clients) + (if IsHost(old(clients), id) then 0 else 1) == CountNonHost(old(clients))
      ensures sends == SendAll(OpenIds(clients), ParticipantCount(CountNonHost(clients)))
    {
      var k := IndexOf(id);
      if k != -1 {
        WithoutAt(clients, k);
        CountNonHostRemove(clients, k);
        RemovePreservesIds(clients, k, nextId);
        assert IsHost(clients, id) <==> clients[k].isHost;
        clients := clients[..k] + clients[k + 1..];
      } else {
        WithoutAbsent(clients, id);
      }
      sends := BroadcastParticipantCount();
    }

    /** The transport moving a connection in or out of the OPEN ready state;
        the server itself sends nothing. */
    method SetReadyState(id: ConnId, open: bool)
      requires Valid()
      modifies this`clients
      ensures Valid()
      ensures clients == WithReadyState(old(clients), id, open)
    {
      clients := WithReadyState(clients, id, open);
    }

    /** The "host-login" branch: the host role for the current, unexpired
        password; the reply either way goes to the sender alone. */
    method HandleLogin(sender: ConnId, candidate: Option<string>, now: int, d: Password.Draw) returns (sends: seq<Send>)
      requires Valid() && Password.ValidDraw(d) && Registered(clients, sender)
      modifies this
      ensures Valid() && nextId == old(nextId)
      ensures var matched := candidate == Some(old(currentPassword));
              var ok := matched && now <= old(passwordExpiry);
              && sends == [Send(sender, if ok then LoginSuccess(LoginSuccessText) else LoginError(LoginErrorText))]
              && clients == (if ok then WithRole(old(clients), sender, true) else old(clients))
              && (matched && now > old(passwordExpiry) ==>
                    currentPassword == Password.Generate(d) && passwordExpiry == now + Password.Duration)
              && (!(matched && now > old(passwordExpiry)) ==>
                    currentPassword == old(currentPassword) && passwordExpiry == old(passwordExpiry))
    {
      var k := IndexOf(sender);
      var ok := ValidatePassword(candidate, now, d);
      if ok {
        WithRoleAt(clients, k, true);
        clients := clients[k := clients[k].(isHost := true)];
        sends := [Send(sender, LoginSuccess(LoginSuccessText))];
      } else {
        sends := [Send(sender, LoginError(LoginErrorText))];
      }
    }

    /** The "host-logout" branch: only a host is logged out, and it is handed
        a freshly generated password. */
    method HandleLogout(sender: ConnId, now: int, d: Password.Draw) returns (sends: seq<Send>)
      requires Valid() && Password.ValidDraw(d) && Registered(clients, sender)
      modifies this
      ensures Valid() && nextId == old(nextId)
      ensures IsHost(old(clients), sender) ==>
                && clients == WithRole(old(clients), sender, false)
                && currentPassword == Password.Generate(d) && passwordExpiry == now + Password.Duration
                && sends == [Send(sender, LogoutSuccess(currentPassword))]
      ensures !IsHost(old(clients), sender) ==> unchanged(this) && sends == []
    {
      var k := IndexOf(sender);
      assert IsHost(clients, sender) <==> clients[k].isHost;
      if clients[k].isHost {
        WithRoleAt(clients, k, false);
        clients := clients[k := clients[k].(isHost := false)];
        var newPassword := GenerateNewPassword(now, d);
        sends := [Send(sender, LogoutSuccess(newPassword))];
      } else {
        sends := [];
      }
    }

    /** The "set-host" branch: the host role with no password asked. */
    method HandleClaimHost(sender: ConnId)
      requires Valid() && Registered(clients, sender)
      modifies this`clients
      ensures Valid()
      ensures clients == WithRole(old(clients), sender, true)
    {
      var k := IndexOf(sender);
      WithRoleAt(clients, k, true);
      clients := clients[k := clients[k].(isHost := true)];
    }

    /** The `message` handler of connection `sender`. */
    method HandleMessage(sender: ConnId, p: Payload, now: int, d: Password.Draw) returns (sends: seq<Send>)
      requires Valid() && Password.ValidDraw(d) && Registered(clients, sender)
      modifies this
      ensures Valid() && nextId == old(nextId)
      ensures forall s :: s in sends ==> !s.msg.ParticipantCount?
      ensures Classify(p).Ignore? ==> unchanged(this) && sends == []
      ensures Classify(p).Login? ==>
                var matched := Classify(p).candidate == Some(old(currentPassword));
                var ok := matched && now <= old(passwordExpiry);
                && sends == [Send(sender, if ok then LoginSuccess(LoginSuccessText) else LoginError(LoginErrorText))]
                && clients == (if ok then WithRole(old(clients), sender, true) else old(clients))
                && (matched && now > old(passwordExpiry) ==>
                      currentPassword == Password.Generate(d) && passwordExpiry == now + Password.Duration)
                && (!(matched && now > old(passwordExpiry)) ==>
                      currentPassword == old(currentPassword) && passwordExpiry == old(passwordExpiry))
      ensures Classify(p).RequestPassword? ==>
                unchanged(this) && sends == [Send(sender, PasswordResponse(currentPassword))]
      ensures Classify(p).Logout? && IsHost(old(clients), sender) ==>
                && clients == WithRole(old(clients), sender, false)
                && currentPassword == Password.Generate(d) && passwordExpiry == now + Password.Duration
                && sends == [Send(sender, LogoutSuccess(currentPassword))]
      ensures Classify(p).Logout? && !IsHost(old(clients), sender) ==> unchanged(this) && sends == []
      ensures Classify(p).ClaimHost? ==>
                && clients == WithRole(old(clients), sender, true)
                && currentPassword == old(currentPassword) && passwordExpiry == old(passwordExpiry)
                && sends == []
      ensures Classify(p).Color? ==>
                unchanged(this) && sends == SendAll(AudienceIds(clients), HostColor(Classify(p).color, Classify(p).mode))
      ensures Classify(p).Effect? ==>
                unchanged(this) && sends == SendAll(AudienceIds(clients), HostEffect(Classify(p).effect, Classify(p).color))
    {
      match Classify(p)
      case Login(candidate) =>
        sends := HandleLogin(sender, candidate, now, d);
      case RequestPassword =>
        sends := [Send(sender, PasswordResponse(currentPassword))];
      case Logout =>
        sends := HandleLogout(sender, now, d);
      case ClaimHost =>
        HandleClaimHost(sender);
        sends := [];
      case Color(color, mode) =>
        sends := SendToAudience(HostColor(color, mode));
      case Effect(effect, color) =>
        sends := SendToAudience(HostEffect(effect, color));
      case Ignore =>
        sends := [];
    }
  }
}
