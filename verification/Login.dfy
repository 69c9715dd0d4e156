/** A whole login: the path of the callback, the token it issues, and the request it redirects to. */
module Login {
  import opened Kube
  import opened Paths
  import opened Session
  import opened Base64

  /** The binding of a session for the dashboard of `key`, whose view names the identity provider client. */
  function BindingOf(key: Key, issuer: string, clientID: string): Binding {
    Binding(key.ns, key.name, issuer, clientID)
  }

  predicate InTime(t0: int, t: int) { Unix(t) < Unix(t0) + 8 * 3600 }

  /** The token a callback on `path` issues. */
  function CallbackToken(
    c: Codec, secret: seq<byte>, sub: seq<byte>, t0: int, path: string, issuer: string, clientID: string): string
  {
    Issued(c, secret, sub, t0, BindingOf(CallbackKey(path), issuer, clientID))
  }

  /** The cookie of a request admits it to the dashboard of `key`. */
  ghost predicate Admitted(
    c: Codec, secret: seq<byte>, token: string, key: Key, issuer: string, clientID: string, now: int)
  {
    Acceptable(c, secret, token, BindingOf(key, issuer, clientID), now)
  }

  lemma CallbackIsFor(path: string, views: map<Key, bool>, key: Key)
    requires Dispatch(path, views, true, false) == Callback(key)
    ensures CallbackKey(path) == key && ParseRoute(DashPath(path)) == Some(Target(key, ""))
  {
    CallbackAgrees(path);
  }

  /** A request for a dashboard that demands a login is turned away exactly without a session. */
  lemma TurnedAway(path: string, views: map<Key, bool>, target: Target, session: bool)
    requires ParseRoute(path) == Some(target) && target.key in views && views[target.key]
    requires target.tail != "callback"
    ensures Dispatch(path, views, true, session) == Login(target.key) <==> !session
  {
  }

  /** The session the token of a callback gives: one key, one issuer, one client, eight hours. */
  lemma TokenAdmits(
    c: Codec, secret: seq<byte>, sub: seq<byte>, t0: int, path: string, views: map<Key, bool>, key: Key,
    issuer: string, clientID: string, key': Key, issuer': string, clientID': string, t: int)
    requires RoundTrips(c) && Dispatch(path, views, true, false) == Callback(key)
    ensures Admitted(c, secret, CallbackToken(c, secret, sub, t0, path, issuer, clientID), key', issuer', clientID', t)
      <==> key' == key && issuer' == issuer && clientID' == clientID && InTime(t0, t)
  {
    CallbackIsFor(path, views, key);
    TokenAcceptedExactly(
      c, secret, secret, sub, t0, BindingOf(key, issuer, clientID), BindingOf(key', issuer', clientID'), t);
  }

  /**
   * Login round trip: after the callback the redirect shows the dashboard of the very key the callback was
   * dispatched to, for eight hours of whole seconds and as long as its view names the same issuer and client;
   * otherwise it asks for a login again, if its view still demands one.
   */
  lemma LoginRoundTrip(
    c: Codec, secret: seq<byte>, sub: seq<byte>, t0: int, path: string, before: map<Key, bool>, key: Key,
    issuer: string, clientID: string, t: int, views: map<Key, bool>, issuer': string, clientID': string)
    requires RoundTrips(c) && Dispatch(path, before, true, false) == Callback(key)
    requires key in views
    ensures var token := CallbackToken(c, secret, sub, t0, path, issuer, clientID);
      Dispatch(DashPath(path), views, true, Admitted(c, secret, token, key, issuer', clientID', t))
      == if !views[key] || (issuer' == issuer && clientID' == clientID && InTime(t0, t)) then Dashboard(key)
         else Login(key)
  {
    var token := CallbackToken(c, secret, sub, t0, path, issuer, clientID);
    var session := Admitted(c, secret, token, key, issuer', clientID', t);
    TokenAdmits(c, secret, sub, t0, path, before, key, issuer, clientID, key, issuer', clientID', t);
    CallbackIsFor(path, before, key);
    EmptyTail(DashPath(path), views, key, session);
  }

  /** The token opens no other dashboard that demands a login. */
  lemma TokenOpensNothingElse(
    c: Codec, secret: seq<byte>, sub: seq<byte>, t0: int, path: string, before: map<Key, bool>, key: Key,
    issuer: string, clientID: string, other: string, views: map<Key, bool>, target: Target,
    issuer': string, clientID': string, t: int)
    requires RoundTrips(c) && Dispatch(path, before, true, false) == Callback(key)
    requires ParseRoute(other) == Some(target) && target.key in views && views[target.key]
    requires target.tail != "callback"
    ensures var token := CallbackToken(c, secret, sub, t0, path, issuer, clientID);
      Dispatch(other, views, true, Admitted(c, secret, token, target.key, issuer', clientID', t)) == Login(target.key)
      <==> !(target.key == key && issuer' == issuer && clientID' == clientID && InTime(t0, t))
  {
    var token := CallbackToken(c, secret, sub, t0, path, issuer, clientID);
    TokenAdmits(c, secret, sub, t0, path, before, key, issuer, clientID, target.key, issuer', clientID', t);
    TurnedAway(other, views, target, Admitted(c, secret, token, target.key, issuer', clientID', t));
  }
}
