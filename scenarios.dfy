/** Executions of the relay built from its handlers' contracts alone: what a
    sequence of events sends and which logins it admits. */
module Scenarios {
  import opened Messages
  import opened Registry
  import opened Server
  import Password
  import opened Dispatch

  /** A first connection is told the count 1, and only it is told. */
  method FirstConnection(now: int, d: Password.Draw)
    requires Password.ValidDraw(d)
  {
    var relay := new Relay(now, d);
    var a, sends := relay.Connect();
    assert relay.clients == [Conn(a, false, true)];
    assert OpenIds(relay.clients) == [a];
    assert CountNonHost(relay.clients) == 1;
    assert sends == SendAll([a], ParticipantCount(1));
    assert sends == [Send(a, ParticipantCount(1))];
  }

  /** A wrong password is refused and the sender stays in the audience; the
      right one, while unexpired, is accepted again and again. */
  method Logins(now: int, d: Password.Draw)
    requires Password.ValidDraw(d)
  {
    var relay := new Relay(now, d);
    var h, _ := relay.Connect();
    var pw := relay.currentPassword;
    Password.WellFormedNonEmpty(pw);

    assert relay.clients[0].id == h;
    assert pw != "wrong" by {
      assert "wrong"[4] == 'g';
    }
    ClassifyRequest(Login(Some("wrong")));
    var s1 := relay.HandleMessage(h, Request(Login(Some("wrong"))), now, d);
    assert s1 == [Send(h, LoginError("Invalid or expired password"))];
    assert relay.clients == [Conn(h, false, true)];

    assert relay.clients[0].id == h;
    ClassifyRequest(Login(Some(pw)));
    var s2 := relay.HandleMessage(h, Request(Login(Some(pw))), now + 1, d);
    assert s2 == [Send(h, LoginSuccess("Login successful"))];
    assert relay.currentPassword == pw;
    assert relay.clients[0].id == h;
    var s3 := relay.HandleMessage(h, Request(Login(Some(pw))), now + 2, d);
    assert s3 == [Send(h, LoginSuccess("Login successful"))];
  }

  /** The first login after expiry fails, even with the old password, and
      leaves a fresh password valid for another 24 hours. */
  method ExpiredLogin(now: int, d: Password.Draw, d2: Password.Draw)
    requires Password.ValidDraw(d) && Password.ValidDraw(d2)
  {
    var relay := new Relay(now, d);
    var h, _ := relay.Connect();
    var pw := relay.currentPassword;
    var later := now + Password.Duration + 1;
    Password.WellFormedNonEmpty(pw);
    assert relay.clients[0].id == h;
    ClassifyRequest(Login(Some(pw)));
    var s := relay.HandleMessage(h, Request(Login(Some(pw))), later, d2);
    assert s == [Send(h, LoginError("Invalid or expired password"))];
    assert relay.currentPassword == Password.Generate(d2);
    assert relay.passwordExpiry == later + Password.Duration;
  }

  /** One connection opening, its broadcast set aside. */
  method Join(relay: Relay) returns (id: ConnId)
    requires relay.Valid()
    modifies relay
    ensures relay.Valid()
    ensures relay.clients == old(relay.clients) + [Conn(id, false, true)]
    ensures relay.currentPassword == old(relay.currentPassword) && relay.passwordExpiry == old(relay.passwordExpiry)
  {
    var s;
    id, s := relay.Connect();
  }

  /** Three connections opened one after the other on a fresh server. */
  method ThreeConnections(now: int, d: Password.Draw) returns (relay: Relay, x: ConnId, y: ConnId, z: ConnId)
    requires Password.ValidDraw(d)
    ensures fresh(relay) && relay.Valid()
    ensures relay.clients == [Conn(x, false, true), Conn(y, false, true), Conn(z, false, true)]
    ensures relay.currentPassword == Password.Generate(d) && relay.passwordExpiry == now + Password.Duration
  {
    relay := new Relay(now, d);
    x := Join(relay);
    assert relay.clients == [Conn(x, false, true)];
    y := Join(relay);
    assert relay.clients == [Conn(x, false, true), Conn(y, false, true)];
    z := Join(relay);
  }

  /** A host login with the current, unexpired password. */
  method LogIn(relay: Relay, h: ConnId, now: int, d: Password.Draw) returns (s: seq<Send>)
    requires relay.Valid() && Password.ValidDraw(d) && Registered(relay.clients, h)
    requires now <= relay.passwordExpiry
    modifies relay
    ensures relay.Valid()
    ensures relay.clients == WithRole(old(relay.clients), h, true)
    ensures relay.currentPassword == old(relay.currentPassword) && relay.passwordExpiry == old(relay.passwordExpiry)
    ensures s == [Send(h, LoginSuccess(LoginSuccessText))]
  {
    var login := Login(Some(relay.currentPassword));
    ClassifyRequest(login);
    s := relay.HandleMessage(h, Request(login), now, d);
  }

  /** After a host login, a colour reaches the two audience connections and
      not the host. */
  method ColorFanOut(now: int, d: Password.Draw)
    requires Password.ValidDraw(d)
  {
    var relay, h, a1, a2 := ThreeConnections(now, d);
    ghost var before := relay.clients;
    assert before[0].id == h;
    WithRoleAt(before, 0, true);
    var s1 := LogIn(relay, h, now, d);
    var cs := relay.clients;
    assert cs == [Conn(h, true, true), Conn(a1, false, true), Conn(a2, false, true)];
    assert cs[..1] == [Conn(h, true, true)] && cs[..2] == [Conn(h, true, true), Conn(a1, false, true)];
    assert AudienceIds(cs[..1]) == [];
    assert AudienceIds(cs[..2]) == [a1];
    assert AudienceIds(cs) == [a1, a2];

    var color := Color("#ff0080", "static");
    assert cs[0].id == h;
    ClassifyRequest(color);
    var s2 := relay.HandleMessage(h, Request(color), now, d);
    var m := HostColor("#ff0080", "static");
    assert s2 == SendAll([a1, a2], m);
    assert s2 == [Send(a1, m), Send(a2, m)];
  }

  /** A close recounts for the connections still there, with one fewer. */
  method CloseRecount(now: int, d: Password.Draw)
    requires Password.ValidDraw(d)
  {
    var relay, a, b, c := ThreeConnections(now, d);
    var cs := relay.clients;
    WithoutAt(cs, 1);
    var s := relay.Close(b);
    var rest := relay.clients;
    assert rest == [Conn(a, false, true), Conn(c, false, true)];
    assert rest[..1] == [Conn(a, false, true)];
    assert OpenIds(rest[..1]) == [a] && CountNonHost(rest[..1]) == 1;
    assert OpenIds(rest) == [a, c] && CountNonHost(rest) == 2;
    assert s == [Send(a, ParticipantCount(2)), Send(c, ParticipantCount(2))];
  }

  /** A set-host from `h`, which then holds the host role. */
  method Claim(relay: Relay, h: ConnId, now: int, d: Password.Draw)
    requires relay.Valid() && Password.ValidDraw(d) && Registered(relay.clients, h)
    modifies relay
    ensures relay.Valid()
    ensures relay.clients == WithRole(old(relay.clients), h, true)
    ensures relay.currentPassword == old(relay.currentPassword) && relay.passwordExpiry == old(relay.passwordExpiry)
  {
    ClassifyRequest(ClaimHost);
    var s := relay.HandleMessage(h, Request(ClaimHost), now, d);
  }

  /** Logout hands the host the new current password; a second logout, no
      longer from a host, does nothing. */
  method LogoutRotation(now: int, d: Password.Draw, d2: Password.Draw)
    requires Password.ValidDraw(d) && Password.ValidDraw(d2)
  {
    var relay := new Relay(now, d);
    var h := Join(relay);
    assert relay.clients[0].id == h;
    WithRoleAt(relay.clients, 0, true);
    Claim(relay, h, now, d);
    assert relay.clients == [Conn(h, true, true)];
    var logout := Request(Logout);
    assert relay.clients[0].id == h;
    ClassifyRequest(Logout);
    assert IsHost(relay.clients, h);
    var s1 := relay.HandleMessage(h, logout, now, d2);
    assert s1 == [Send(h, LogoutSuccess(Password.Generate(d2)))];
    assert relay.clients == [Conn(h, false, true)];
    assert relay.clients[0].id == h;
    assert !IsHost(relay.clients, h);
    var s2 := relay.HandleMessage(h, logout, now, d);
    assert s2 == [];
  }
}
