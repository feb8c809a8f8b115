/** Applying an application profile to a client record and bringing the record into its normal form. */
module ClientRegistry {
  import opened Domain
  import opened Words

  // ---- comparing without regard to case ----

  /** Simple case folding onto lower-case ASCII: the long s and the Kelvin sign fold too. */
  function Fold(c: char): char {
    if 'A' <= c <= 'Z' then (c as int + 32) as char
    else if c as int == 0x17F then 's'
    else if c as int == 0x212A then 'k'
    else c
  }

  /** Whether `s` is `target`, a lower-case ASCII word, up to case. */
  predicate EqualFold(s: string, target: string) {
    |s| == |target| && forall i | 0 <= i < |s| :: Fold(s[i]) == target[i]
  }

  /** A lower-case word matches itself in any mixture of upper and lower case, and besides only with a long s for an s or a
      Kelvin sign for a k. */
  lemma WhatFolds(s: string, target: string)
    requires forall i | 0 <= i < |target| :: 'a' <= target[i] <= 'z' || target[i] == '_'
    ensures EqualFold(s, target) <==>
              && |s| == |target|
              && forall i | 0 <= i < |s| ::
                   || s[i] == target[i]
                   || (target[i] != '_' && s[i] as int == target[i] as int - 32)
                   || (target[i] == 's' && s[i] as int == 0x17F)
                   || (target[i] == 'k' && s[i] as int == 0x212A)
  {
  }

  predicate ContainsFold(xs: seq<string>, target: string) {
    exists x | x in xs :: EqualFold(x, target)
  }

  // ---- lists ----

  /** Trimmed, without empty entries and repetitions. */
  function Clean(xs: seq<string>): (out: seq<string>) {
    if xs == [] then []
    else
      var out, v := Clean(xs[..|xs| - 1]), Trim(xs[|xs| - 1]);
      if v == "" || v in out then out else out + [v]
  }

  method CleanStringList(xs: seq<string>) returns (out: seq<string>)
    ensures out == Clean(xs)
  {
    out := [];
    var seen: set<string> := {};
    for i := 0 to |xs|
      invariant out == Clean(xs[..i])
      invariant forall v :: v in seen <==> v in out
    {
      assert xs[..i + 1][..i] == xs[..i];
      var v := Trim(xs[i]);
      if v == "" {
        continue;
      }
      if v in seen {
        continue;
      }
      seen := seen + {v};
      out := out + [v];
    }
    assert xs[..|xs|] == xs;
  }

  function Without(xs: seq<string>, target: string): seq<string> {
    if xs == [] then []
    else
      var out, x := Without(xs[..|xs| - 1], target), xs[|xs| - 1];
      if EqualFold(x, target) then out else out + [x]
  }

  method RemoveScope(xs: seq<string>, target: string) returns (out: seq<string>)
    ensures out == Without(xs, target)
  {
    out := [];
    for i := 0 to |xs|
      invariant out == Without(xs[..i], target)
    {
      assert xs[..i + 1][..i] == xs[..i];
      if !EqualFold(xs[i], target) {
        out := out + [xs[i]];
      }
    }
    assert xs[..|xs|] == xs;
  }

  predicate IsClean(xs: seq<string>) {
    && (forall i | 0 <= i < |xs| :: xs[i] != "" && Trim(xs[i]) == xs[i])
    && (forall i, j | 0 <= i < j < |xs| :: xs[i] != xs[j])
  }

  lemma {:induction false} TrimTwice(s: string)
    ensures Trim(Trim(s)) == Trim(s)
  {
    var t := Trim(s);
    if t != [] {
      assert !IsSpace(t[0]) && !IsSpace(t[|t| - 1]);
    }
  }

  /** `out` holds each non-empty trimmed entry of `xs` once, at the place of its first appearance; `at` says where. */
  predicate FirstAppearances(xs: seq<string>, out: seq<string>, at: seq<nat>) {
    && |at| == |out|
    && (forall i | 0 <= i < |at| :: at[i] < |xs| && Trim(xs[at[i]]) == out[i])
    && (forall i, k | 0 <= i < |at| && 0 <= k < at[i] :: Trim(xs[k]) != out[i])
    && (forall i, j | 0 <= i < j < |at| :: at[i] < at[j])
    && (forall k | 0 <= k < |xs| && Trim(xs[k]) != "" :: Trim(xs[k]) in out)
  }

  lemma OneEntryMore(xs: seq<string>, x: string, out: seq<string>, at: seq<nat>)
    requires FirstAppearances(xs, out, at)
    ensures Trim(x) == "" || Trim(x) in out ==> FirstAppearances(xs + [x], out, at)
    ensures Trim(x) != "" && Trim(x) !in out ==> FirstAppearances(xs + [x], out + [Trim(x)], at + [|xs|])
  {
    var ys := xs + [x];
    assert forall k | 0 <= k < |xs| :: ys[k] == xs[k];
    if Trim(x) != "" && Trim(x) !in out {
      forall k | 0 <= k < |xs| ensures Trim(ys[k]) != Trim(x) {
      }
    }
  }

  lemma {:induction false} CleanKeepsFirstAppearances(xs: seq<string>) returns (at: seq<nat>)
    ensures FirstAppearances(xs, Clean(xs), at)
    decreases |xs|
  {
    if xs == [] {
      at := [];
    } else {
      var before, x := xs[..|xs| - 1], xs[|xs| - 1];
      at := CleanKeepsFirstAppearances(before);
      OneEntryMore(before, x, Clean(before), at);
      assert xs == before + [x];
      if Trim(x) != "" && Trim(x) !in Clean(before) {
        at := at + [|before|];
      }
    }
  }

  lemma CleanPrepended(x: string, xs: seq<string>)
    requires IsClean(xs) && x !in xs && x != "" && Trim(x) == x
    ensures IsClean([x] + xs)
  {
  }

  lemma CleanAppended(xs: seq<string>, x: string)
    requires IsClean(xs) && x !in xs && x != "" && Trim(x) == x
    ensures IsClean(xs + [x])
  {
  }

  lemma {:induction false} CleanIsClean(xs: seq<string>)
    ensures IsClean(Clean(xs))
    decreases |xs|
  {
    if xs != [] {
      CleanIsClean(xs[..|xs| - 1]);
      var out, x := Clean(xs[..|xs| - 1]), xs[|xs| - 1];
      if Trim(x) != "" && Trim(x) !in out {
        TrimTwice(x);
        CleanAppended(out, Trim(x));
      }
    }
  }

  lemma {:induction false} CleanOfClean(xs: seq<string>)
    requires IsClean(xs)
    ensures Clean(xs) == xs
    decreases |xs|
  {
    if xs != [] {
      CleanOfClean(xs[..|xs| - 1]);
      assert xs == xs[..|xs| - 1] + [xs[|xs| - 1]];
    }
  }

  lemma {:induction false} WithoutKeeps(xs: seq<string>, target: string)
    ensures forall x :: x in Without(xs, target) <==> x in xs && !EqualFold(x, target)
    ensures !ContainsFold(xs, target) ==> Without(xs, target) == xs
    ensures IsClean(xs) ==> IsClean(Without(xs, target))
    decreases |xs|
  {
    if xs != [] {
      var before, x := xs[..|xs| - 1], xs[|xs| - 1];
      WithoutKeeps(before, target);
      assert xs == before + [x];
      if IsClean(xs) && !EqualFold(x, target) {
        assert IsClean(before) && x == xs[|xs| - 1];
        CleanAppended(Without(before, target), x);
      }
    }
  }

  lemma WithoutOne(x: string, target: string)
    ensures Without([x], target) == if EqualFold(x, target) then [] else [x]
  {
    assert [x][..0] == [];
  }

  /** The entries that remain keep their order and their repetitions. */
  lemma {:induction false} WithoutKeepsOrder(xs: seq<string>, ys: seq<string>, target: string)
    ensures Without(xs + ys, target) == Without(xs, target) + Without(ys, target)
    decreases |ys|
  {
    if ys == [] {
      assert xs + ys == xs;
    } else {
      var before, y := ys[..|ys| - 1], ys[|ys| - 1];
      WithoutKeepsOrder(xs, before, target);
      assert (xs + ys)[..|xs + ys| - 1] == xs + before && (xs + ys)[|xs + ys| - 1] == y;
    }
  }

  lemma ContainsFoldOfSum(xs: seq<string>, ys: seq<string>, target: string)
    ensures ContainsFold(xs + ys, target) <==> ContainsFold(xs, target) || ContainsFold(ys, target)
  {
    if ContainsFold(xs, target) {
      var x :| x in xs && EqualFold(x, target);
      assert x in xs + ys;
    }
    if ContainsFold(ys, target) {
      var y :| y in ys && EqualFold(y, target);
      assert y in xs + ys;
    }
  }

  // ---- the client record ----

  function ProfileOf(c: Client): Profile {
    if c.authMethod == PrivateKeyJwt then
      if c.allowClientCredentials && |c.redirectUris| == 0 && !c.allowRefreshTokens then M2m
      else if !c.allowClientCredentials then Web
      else Custom
    else Spa
  }

  function Applied(c: Client, p: Profile): Client {
    match p
    case Spa => c.(authMethod := NoAuth, requirePkce := true, allowClientCredentials := false, jwksJson := "")
    case Web => c.(authMethod := PrivateKeyJwt, requirePkce := true, allowClientCredentials := false)
    case M2m => c.(authMethod := PrivateKeyJwt, allowClientCredentials := true, allowRefreshTokens := false, requirePkce := false,
                   redirectUris := [], postLogoutRedirectUris := [], allowedScopes := Without(c.allowedScopes, OFFLINE_ACCESS))
    case Custom => c
  }

  function WithOpenid(cleaned: seq<string>): seq<string> {
    if ContainsFold(cleaned, OPENID) then cleaned else [OPENID] + cleaned
  }

  function NormalScopes(scopes: seq<string>, allowRefreshTokens: bool): seq<string> {
    var withOpenid := WithOpenid(Clean(scopes));
    if !allowRefreshTokens then Without(withOpenid, OFFLINE_ACCESS)
    else if ContainsFold(withOpenid, OFFLINE_ACCESS) then withOpenid
    else withOpenid + [OFFLINE_ACCESS]
  }

  function Normalized(c: Client): Client {
    var authMethod := if c.authMethod == Unset then NoAuth else c.authMethod;
    c.(clientId := Trim(c.clientId), displayName := Trim(c.displayName), authMethod := authMethod,
       jwksJson := if authMethod == NoAuth then "" else Trim(c.jwksJson),
       allowClientCredentials := c.allowClientCredentials && authMethod != NoAuth,
       redirectUris := Clean(c.redirectUris), postLogoutRedirectUris := Clean(c.postLogoutRedirectUris),
       allowedScopes := NormalScopes(c.allowedScopes, c.allowRefreshTokens))
  }

  lemma FieldsDecide(c: Client, d: Client)
    requires d.clientId == Trim(c.clientId) && d.displayName == Trim(c.displayName)
    requires d.authMethod == if c.authMethod == Unset then NoAuth else c.authMethod
    requires d.jwksJson == if d.authMethod == NoAuth then "" else Trim(c.jwksJson)
    requires d.allowClientCredentials <==> c.allowClientCredentials && d.authMethod != NoAuth
    requires d.redirectUris == Clean(c.redirectUris) && d.postLogoutRedirectUris == Clean(c.postLogoutRedirectUris)
    requires d.allowedScopes == NormalScopes(c.allowedScopes, c.allowRefreshTokens)
    requires d.requirePkce == c.requirePkce && d.allowRefreshTokens == c.allowRefreshTokens
    requires d.refreshLifetimeSeconds == c.refreshLifetimeSeconds
    requires d.refreshAbsoluteLifetimeSeconds == c.refreshAbsoluteLifetimeSeconds && d.refreshExpiration == c.refreshExpiration
    ensures d == Normalized(c)
  {
  }

  class ClientRecord {
    var clientId: string
    var displayName: string
    var redirectUris: seq<string>
    var postLogoutRedirectUris: seq<string>
    var allowedScopes: seq<string>
    var requirePkce: bool
    var allowRefreshTokens: bool
    var allowClientCredentials: bool
    var authMethod: AuthMethod
    var jwksJson: string
    const refreshLifetimeSeconds: int
    const refreshAbsoluteLifetimeSeconds: int
    const refreshExpiration: Expiration

    constructor (c: Client)
      ensures Value() == c
    {
      clientId, displayName := c.clientId, c.displayName;
      redirectUris, postLogoutRedirectUris, allowedScopes := c.redirectUris, c.postLogoutRedirectUris, c.allowedScopes;
      requirePkce, allowRefreshTokens, allowClientCredentials := c.requirePkce, c.allowRefreshTokens, c.allowClientCredentials;
      authMethod, jwksJson := c.authMethod, c.jwksJson;
      refreshLifetimeSeconds, refreshAbsoluteLifetimeSeconds := c.refreshLifetimeSeconds, c.refreshAbsoluteLifetimeSeconds;
      refreshExpiration := c.refreshExpiration;
    }

    function Value(): Client
      reads this
    {
      Client(clientId, displayName, redirectUris, postLogoutRedirectUris, allowedScopes, requirePkce, allowRefreshTokens,
             allowClientCredentials, authMethod, jwksJson, refreshLifetimeSeconds, refreshAbsoluteLifetimeSeconds, refreshExpiration)
    }

    method ApplyProfile(p: Profile)
      modifies this
      ensures Value() == Applied(old(Value()), p)
      ensures unchanged(`clientId, `displayName)
      ensures p == Custom ==> Value() == old(Value())
      ensures p == Spa || p == Web ==>
                && requirePkce && !allowClientCredentials && authMethod == (if p == Spa then NoAuth else PrivateKeyJwt)
                && jwksJson == (if p == Spa then "" else old(jwksJson))
                && unchanged(`allowRefreshTokens, `redirectUris, `postLogoutRedirectUris, `allowedScopes)
      ensures p == M2m ==>
                && !requirePkce && allowClientCredentials && !allowRefreshTokens && authMethod == PrivateKeyJwt
                && redirectUris == [] && postLogoutRedirectUris == [] && unchanged(`jwksJson)
                && allowedScopes == Without(old(allowedScopes), OFFLINE_ACCESS)
    {
      match p {
        case Spa =>
          authMethod := NoAuth;
          requirePkce := true;
          allowClientCredentials := false;
          jwksJson := "";
        case Web =>
          authMethod := PrivateKeyJwt;
          requirePkce := true;
          allowClientCredentials := false;
        case M2m =>
          authMethod := PrivateKeyJwt;
          allowClientCredentials := true;
          allowRefreshTokens := false;
          requirePkce := false;
          redirectUris := [];
          postLogoutRedirectUris := [];
          allowedScopes := RemoveScope(allowedScopes, OFFLINE_ACCESS);
        case Custom =>
      }
    }

    method Normalize()
      modifies this
      ensures Value() == Normalized(old(Value()))
      ensures unchanged(`requirePkce, `allowRefreshTokens)
      ensures authMethod == (if old(authMethod) == Unset then NoAuth else old(authMethod))
      ensures allowClientCredentials <==> old(allowClientCredentials) && authMethod != NoAuth
      ensures jwksJson == if authMethod == NoAuth then "" else Trim(old(jwksJson))
      ensures clientId == Trim(old(clientId)) && displayName == Trim(old(displayName))
      ensures redirectUris == Clean(old(redirectUris)) && postLogoutRedirectUris == Clean(old(postLogoutRedirectUris))
    {
      NormalizeCredentials();
      NormalizeLists();
      FieldsDecide(old(Value()), Value());
    }

    method NormalizeLists()
      modifies this`redirectUris, this`postLogoutRedirectUris, this`allowedScopes
      ensures redirectUris == Clean(old(redirectUris)) && postLogoutRedirectUris == Clean(old(postLogoutRedirectUris))
      ensures allowedScopes == NormalScopes(old(allowedScopes), allowRefreshTokens)
    {
      redirectUris := CleanStringList(redirectUris);
      postLogoutRedirectUris := CleanStringList(postLogoutRedirectUris);
      NormalizeScopes();
    }

    method NormalizeCredentials()
      modifies this`clientId, this`displayName, this`jwksJson, this`authMethod, this`allowClientCredentials
      ensures clientId == Trim(old(clientId)) && displayName == Trim(old(displayName))
      ensures authMethod == if old(authMethod) == Unset then NoAuth else old(authMethod)
      ensures jwksJson == if authMethod == NoAuth then "" else Trim(old(jwksJson))
      ensures allowClientCredentials <==> old(allowClientCredentials) && authMethod != NoAuth
    {
      clientId := Trim(clientId);
      displayName := Trim(displayName);
      jwksJson := Trim(jwksJson);
      if authMethod == Unset {
        authMethod := NoAuth;
      }
      if authMethod == NoAuth {
        allowClientCredentials := false;
        jwksJson := "";
      }
    }

    method NormalizeScopes()
      modifies this`allowedScopes
      ensures allowedScopes == NormalScopes(old(allowedScopes), allowRefreshTokens)
    {
      allowedScopes := CleanStringList(allowedScopes);
      if !ContainsFold(allowedScopes, OPENID) {
        allowedScopes := [OPENID] + allowedScopes;
      }
      if allowRefreshTokens && !ContainsFold(allowedScopes, OFFLINE_ACCESS) {
        allowedScopes := allowedScopes + [OFFLINE_ACCESS];
      }
      if !allowRefreshTokens {
        allowedScopes := RemoveScope(allowedScopes, OFFLINE_ACCESS);
      }
    }
  }

  // ---- what normal form means ----

  predicate IsNormal(c: Client) {
    && Trim(c.clientId) == c.clientId && Trim(c.displayName) == c.displayName && Trim(c.jwksJson) == c.jwksJson
    && c.authMethod != Unset && (c.authMethod == NoAuth ==> !c.allowClientCredentials && c.jwksJson == "")
    && IsClean(c.redirectUris) && IsClean(c.postLogoutRedirectUris) && IsClean(c.allowedScopes)
    && ContainsFold(c.allowedScopes, OPENID)
    && (ContainsFold(c.allowedScopes, OFFLINE_ACCESS) <==> c.allowRefreshTokens)
  }

  lemma TargetsFoldToThemselves()
    ensures EqualFold(OPENID, OPENID) && EqualFold(OFFLINE_ACCESS, OFFLINE_ACCESS)
    ensures forall x | EqualFold(x, OPENID) :: !EqualFold(x, OFFLINE_ACCESS)
    ensures Trim(OPENID) == OPENID && Trim(OFFLINE_ACCESS) == OFFLINE_ACCESS
  {
    assert |OPENID| == 6 && |OFFLINE_ACCESS| == 14;
  }

  lemma OpenidIsThere(cleaned: seq<string>)
    requires IsClean(cleaned)
    ensures IsClean(WithOpenid(cleaned)) && ContainsFold(WithOpenid(cleaned), OPENID)
  {
    TargetsFoldToThemselves();
    assert OPENID in [OPENID];
    ContainsFoldOfSum([OPENID], cleaned, OPENID);
    if !ContainsFold(cleaned, OPENID) {
      CleanPrepended(OPENID, cleaned);
    }
  }

  lemma NormalScopesAreNormal(scopes: seq<string>, allowRefreshTokens: bool)
    ensures var s := NormalScopes(scopes, allowRefreshTokens);
            IsClean(s) && ContainsFold(s, OPENID) && (ContainsFold(s, OFFLINE_ACCESS) <==> allowRefreshTokens)
  {
    TargetsFoldToThemselves();
    CleanIsClean(scopes);
    var some := WithOpenid(Clean(scopes));
    OpenidIsThere(Clean(scopes));
    if !allowRefreshTokens {
      WithoutKeeps(some, OFFLINE_ACCESS);
      var o :| o in some && EqualFold(o, OPENID);
      assert o in Without(some, OFFLINE_ACCESS);
    } else if !ContainsFold(some, OFFLINE_ACCESS) {
      assert OFFLINE_ACCESS in [OFFLINE_ACCESS];
      ContainsFoldOfSum(some, [OFFLINE_ACCESS], OPENID);
      ContainsFoldOfSum(some, [OFFLINE_ACCESS], OFFLINE_ACCESS);
      CleanAppended(some, OFFLINE_ACCESS);
    }
  }

  /** Normalised scopes come in the order given, with openid put in front and offline_access at the end where they are missing. */
  lemma ScopesKeepTheirOrder(scopes: seq<string>)
    ensures var cleaned := Clean(scopes);
            var withOpenid := if ContainsFold(cleaned, "openid") then cleaned else ["openid"] + cleaned;
            && NormalScopes(scopes, false) == Without(withOpenid, "offline_access")
            && NormalScopes(scopes, true) == if ContainsFold(withOpenid, "offline_access") then withOpenid
                                             else withOpenid + ["offline_access"]
  {
  }

  /** Normalising keeps every scope, trimmed, but offline_access where refresh tokens are not allowed, and adds none but openid and
      offline_access. */
  lemma ScopesAreKept(scopes: seq<string>, allowRefreshTokens: bool)
    ensures var s := NormalScopes(scopes, allowRefreshTokens);
            && (forall k | 0 <= k < |scopes| && Trim(scopes[k]) != "" && (allowRefreshTokens || !EqualFold(Trim(scopes[k]), "offline_access")) ::
                  Trim(scopes[k]) in s)
            && (forall x | x in s && x != "openid" && x != "offline_access" :: exists k :: 0 <= k < |scopes| && Trim(scopes[k]) == x)
  {
    var at := CleanKeepsFirstAppearances(scopes);
    WithoutKeeps(WithOpenid(Clean(scopes)), OFFLINE_ACCESS);
    forall x | x in NormalScopes(scopes, allowRefreshTokens) && x != "openid" && x != "offline_access"
      ensures exists k :: 0 <= k < |scopes| && Trim(scopes[k]) == x
    {
      assert x in Clean(scopes);
      var i :| 0 <= i < |Clean(scopes)| && Clean(scopes)[i] == x;
      assert Trim(scopes[at[i]]) == x;
    }
  }

  /** Whatever the record held, normalising it leaves it in normal form: clean lists, openid among the scopes, and
      offline_access, up to case, exactly when refresh tokens are allowed. */
  lemma NormalizingIsEnough(c: Client)
    ensures IsNormal(Normalized(c))
  {
    TrimTwice(c.clientId);
    TrimTwice(c.displayName);
    TrimTwice(c.jwksJson);
    CleanIsClean(c.redirectUris);
    CleanIsClean(c.postLogoutRedirectUris);
    NormalScopesAreNormal(c.allowedScopes, c.allowRefreshTokens);
  }

  /** Normalising changes nothing exactly when the record is in normal form; so doing it twice is doing it once. */
  lemma NormalFormsAreFixedPoints(c: Client)
    ensures Normalized(c) == c <==> IsNormal(c)
    ensures Normalized(Normalized(c)) == Normalized(c)
  {
    NormalizingIsEnough(c);
    if IsNormal(c) {
      NormalStaysPut(c);
    }
    NormalStaysPut(Normalized(c));
  }

  lemma NormalStaysPut(c: Client)
    requires IsNormal(c)
    ensures Normalized(c) == c
  {
    CleanOfClean(c.redirectUris);
    CleanOfClean(c.postLogoutRedirectUris);
    CleanOfClean(c.allowedScopes);
    WithoutKeeps(c.allowedScopes, OFFLINE_ACCESS);
  }

  predicate ContainsText(xs: seq<string>) {
    exists k | 0 <= k < |xs| :: Trim(xs[k]) != ""
  }

  lemma CleanIsEmpty(xs: seq<string>)
    ensures Clean(xs) != [] <==> ContainsText(xs)
  {
    var at := CleanKeepsFirstAppearances(xs);
    CleanIsClean(xs);
    if Clean(xs) != [] {
      assert Trim(xs[at[0]]) == Clean(xs)[0] != "";
    }
  }

  /** A record given one of the three profiles and normalised has that profile. A record given no profile reads back as
      custom exactly when it authenticates with a key, may use client credentials and either has a redirect URI or may
      refresh. */
  lemma ProfilesReadBack(c: Client, p: Profile)
    ensures ProfileOf(Normalized(Applied(c, p))) == p <==>
              p != Custom
              || (c.authMethod == PrivateKeyJwt && c.allowClientCredentials
                  && (c.allowRefreshTokens || ContainsText(c.redirectUris)))
  {
    CleanIsEmpty(c.redirectUris);
  }
}
