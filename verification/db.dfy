/** The connection settings of the MongoDB store: the URI `MatvirdDB`
    builds from its arguments, and the defaults and branch `get_database`
    chooses from a settings dict. The client, the server round trip and
    every database operation are left out; a connection is described by
    the arguments it would be opened with. */
module Db {
  import opened Results
  import opened Strings
  import opened PyDict
  import opened PyValues

  const Scheme := "mongodb://"

  /** The argument Python's `str + x` rejects. */
  const ConcatError := TypeError("can only concatenate str")

  /** The credentials part of the URI: `user`, `:passwd` when a password is
      given, then `@`. */
  function Credentials(user: string, passwd: PyVal): (c: string)
    ensures StartsWith(c, user) && EndsWith(c, "@")
    ensures passwd.PNone? <==> c == user + "@"
  {
    var c := user + (if passwd.PNone? then "" else ":" + Str(passwd)) + "@";
    assert c[..|user|] == user;
    c
  }

  /** The URI `MatvirdDB.__init__` assembles. `+` on a non-string host, user
      or name raises `TypeError`; the port and password go through `str`. */
  function Uri(name: PyVal, host: PyVal, port: PyVal, user: PyVal, passwd: PyVal): (r: Result<string>)
    ensures r.Err? <==> !host.PStr? || !(user.PNone? || (user.PStr? && name.PStr?))
    ensures r.Err? ==> r.error == ConcatError
    ensures r.Ok? ==> StartsWith(r.value, Scheme)
    ensures r.Ok? && user.PNone? ==> r.value == Scheme + host.s + ":" + Str(port)
    ensures r.Ok? && user.PStr? ==>
      r.value == Scheme + Credentials(user.s, passwd) + host.s + ":" + Str(port) + "/" + name.s
  {
    if user.PNone? then
      if !host.PStr? then Err(ConcatError)
      else
        var u := Scheme + host.s + ":" + Str(port);
        assert u == Scheme + (host.s + ":" + Str(port));
        Ok(u)
    else if !user.PStr? then Err(ConcatError)
    else if !host.PStr? then Err(ConcatError)
    else if !name.PStr? then Err(ConcatError)
    else
      var u := Scheme + Credentials(user.s, passwd) + host.s + ":" + Str(port) + "/" + name.s;
      assert u == Scheme + (Credentials(user.s, passwd) + host.s + ":" + Str(port) + "/" + name.s);
      Ok(u)
  }

  /** Text without an `@`. */
  predicate NoAt(s: string) {
    '@' !in s
  }

  /** With a host, port and database name free of `@`, the URI holds an `@`
      exactly when a user is given: credentials never appear otherwise. */
  lemma CredentialsOnlyWithUser(name: PyVal, host: PyVal, port: PyVal, user: PyVal, passwd: PyVal)
    requires Uri(name, host, port, user, passwd).Ok?
    requires NoAt(host.s) && NoAt(Str(port)) && (name.PStr? ==> NoAt(name.s))
    ensures '@' in Uri(name, host, port, user, passwd).value <==> user.PStr?
  {
    var p := Str(port);
    if user.PStr? {
      var c := Credentials(user.s, passwd);
      assert c[|c| - 1] == '@';
      AtKept(Scheme, c);
      AtKept(Scheme + c, host.s);
      AtKept(Scheme + c + host.s, ":");
      AtKept(Scheme + c + host.s + ":", p);
      AtKept(Scheme + c + host.s + ":" + p, "/");
      AtKept(Scheme + c + host.s + ":" + p + "/", name.s);
    } else {
      assert NoAt(Scheme) by { assert forall i :: 0 <= i < |Scheme| ==> Scheme[i] != '@'; }
      NoAtConcat(Scheme, host.s);
      NoAtConcat(Scheme + host.s, ":");
      NoAtConcat(Scheme + host.s + ":", p);
    }
  }

  /** An `@` survives concatenation on either side. */
  lemma AtKept(s: string, t: string)
    ensures ('@' in s || '@' in t) ==> '@' in s + t
  {
    if '@' in t {
      var k :| 0 <= k < |t| && t[k] == '@';
      assert (s + t)[|s| + k] == '@';
    } else if '@' in s {
      var k :| 0 <= k < |s| && s[k] == '@';
      assert (s + t)[k] == '@';
    }
  }

  lemma NoAtConcat(a: string, b: string)
    requires NoAt(a) && NoAt(b)
    ensures NoAt(a + b)
  {
  }

  // ------------------------------------------------------------ get_database

  /** What `get_database` ends up opening: a client built straight from the
      settings, or one built by `create_database` after it registered the
      user with the administrator's credentials. */
  datatype Connection =
    | Direct(name: PyVal, uri: string, ssl: PyVal, replicaset: PyVal)
    | CreatedUser(adminName: PyVal, adminPasswd: PyVal, name: PyVal, uri: string, ssl: PyVal, replicaset: PyVal)

  /** `if k not in d: d[k] = v` */
  function SetDefault(d: StrDict, k: string, v: PyVal): (r: StrDict)
    ensures Get(r, k) == Some(GetOr(d, k, v))
    ensures forall j :: j != k ==> Get(r, j) == Get(d, j)
    ensures forall j :: j in Keys(r) <==> j in Keys(d) || j == k
  {
    GetPresent(d, k);
    var r := if k in Keys(d) then d else Put(d, k, v);
    forall j ensures j in Keys(r) <==> j in Keys(d) || j == k {
      GetPresent(d, j);
      GetPresent(r, j);
    }
    r
  }

  /** The four defaults `get_database` writes into the caller's settings:
      only missing keys are filled, and existing values are kept. */
  function FillDefaults(settings: StrDict): (r: StrDict)
    ensures GetOr(r, "host", PNone) == GetOr(settings, "host", PStr("localhost"))
    ensures GetOr(r, "port", PNone) == GetOr(settings, "port", PInt(27017))
    ensures GetOr(r, "ssl", PNone) == GetOr(settings, "ssl", PBool(false))
    ensures GetOr(r, "replicaset", PNone) == GetOr(settings, "replicaset", PNone)
    ensures forall k :: k !in DefaultKeys ==> Get(r, k) == Get(settings, k)
    ensures forall k :: k in Keys(r) <==> k in Keys(settings) || k in DefaultKeys
  {
    assert forall k :: k in DefaultKeys <==> k == "host" || k == "port" || k == "ssl" || k == "replicaset";
    var a := SetDefault(settings, "host", PStr("localhost"));
    assert Get(a, "port") == Get(settings, "port") && Get(a, "ssl") == Get(settings, "ssl")
      && Get(a, "replicaset") == Get(settings, "replicaset");
    var b := SetDefault(a, "port", PInt(27017));
    assert Get(b, "host") == Get(a, "host") && Get(b, "ssl") == Get(a, "ssl")
      && Get(b, "replicaset") == Get(a, "replicaset");
    var c := SetDefault(b, "ssl", PBool(false));
    assert Get(c, "host") == Get(b, "host") && Get(c, "port") == Get(b, "port")
      && Get(c, "replicaset") == Get(b, "replicaset");
    SetDefault(c, "replicaset", PNone)
  }

  const DefaultKeys := ["host", "port", "ssl", "replicaset"]

  /** `get_database(db_settings)`, stated on the settings after
      `FillDefaults` has filled them in place: no `user` means no
      credentials; a user with both administrator keys
      takes the create path; a user without them connects directly with
      the user's credentials. A missing `name` or `passwd` is a
      `KeyError`. */
  function GetDatabase(settings: StrDict): (r: Result<Connection>)
    ensures var s := FillDefaults(settings);
      var hasUser := "user" in Keys(s);
      var user := if hasUser then GetOr(s, "user", PNone) else PNone;
      var passwd := if hasUser then GetOr(s, "passwd", PNone) else PNone;
      var uri := Uri(GetOr(s, "name", PNone), GetOr(s, "host", PNone), GetOr(s, "port", PNone), user, passwd);
      && ("name" !in Keys(s) ==> r == Err(KeyError("name")))
      && (hasUser && "name" in Keys(s) && "passwd" !in Keys(s) ==> r == Err(KeyError("passwd")))
      && (r.Ok? <==> "name" in Keys(s) && (hasUser ==> "passwd" in Keys(s)) && uri.Ok?)
      && (r.Ok? ==> r.value.name == GetOr(s, "name", PNone) && r.value.uri == uri.value)
      && (r.Ok? ==> (r.value.CreatedUser? <==> hasUser && "admin_name" in Keys(s) && "admin_passwd" in Keys(s)))
      && (r.Ok? ==> r.value.ssl == GetOr(s, "ssl", PNone) && r.value.replicaset == GetOr(s, "replicaset", PNone))
  {
    var s := FillDefaults(settings);
    GetPresent(s, "name");
    GetPresent(s, "passwd");
    var name :- Item(s, "name");
    var host := GetOr(s, "host", PNone);
    var port := GetOr(s, "port", PNone);
    var ssl := GetOr(s, "ssl", PNone);
    var rs := GetOr(s, "replicaset", PNone);
    if "user" !in Keys(s) then
      Connect(name, host, port, PNone, PNone, ssl, rs, None)
    else
      var passwd :- Item(s, "passwd");
      var admin := if "admin_name" in Keys(s) && "admin_passwd" in Keys(s)
                   then Some((GetOr(s, "admin_name", PNone), GetOr(s, "admin_passwd", PNone)))
                   else None;
      Connect(name, host, port, GetOr(s, "user", PNone), passwd, ssl, rs, admin)
  }

  /** `MatvirdDB(...)`, or `create_database(...)` when administrator
      credentials are given: either way the client is opened on `Uri`. */
  function Connect(name: PyVal, host: PyVal, port: PyVal, user: PyVal, passwd: PyVal,
                   ssl: PyVal, replicaset: PyVal, admin: Option<(PyVal, PyVal)>): (r: Result<Connection>)
    ensures r.Ok? <==> Uri(name, host, port, user, passwd).Ok?
    ensures r.Err? ==> r.error == ConcatError
    ensures r.Ok? ==> && r.value.name == name && r.value.uri == Uri(name, host, port, user, passwd).value
                      && r.value.ssl == ssl && r.value.replicaset == replicaset
                      && (r.value.CreatedUser? <==> admin.Some?)
  {
    var uri :- Uri(name, host, port, user, passwd);
    match admin
    case Some((a, p)) => Ok(CreatedUser(a, p, name, uri, ssl, replicaset))
    case None => Ok(Direct(name, uri, ssl, replicaset))
  }

  /** Without a `user` key the client connects directly on a URI that holds
      only the scheme, the host and the port, whatever else the settings
      carry: a `passwd` alone is never sent. */
  lemma NoUserNoCredentials(settings: StrDict)
    requires "user" !in Keys(settings) && GetDatabase(settings).Ok?
    ensures var r := GetDatabase(settings).value;
      var host := GetOr(settings, "host", PStr("localhost"));
      && r.Direct?
      && host.PStr?
      && r.uri == Scheme + host.s + ":" + Str(GetOr(settings, "port", PInt(27017)))
  {
    var s := FillDefaults(settings);
    assert "user" !in DefaultKeys;
    assert "user" !in Keys(s);
  }
}
