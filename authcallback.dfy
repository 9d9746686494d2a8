/** The OAuth callback of app/auth/callback/route.ts: the code exchange, the
    profile row synced from the identity provider's metadata, and the choice
    of where to send the browser afterwards. */
module AuthCallback {
  import opened Common
  import opened Seqs
  import opened Database

  const ErrorPath: string := "/auth/auth-code-error"

  /** The signed-in user as the auth service returns it; `email` may be undefined. */
  datatype AuthUser = AuthUser(id: UserId, email: Option<string>, metadata: Metadata)

  /** `user_metadata.<key>`: undefined when the key is absent, else the stored string or null. */
  function MetaField(m: Metadata, key: string): (f: Field)
    ensures f.Undefined? <==> key !in m
    ensures f.Text? <==> key in m && m[key].Some?
  {
    if key !in m then Undefined
    else if m[key].None? then Null
    else Text(m[key].value)
  }

  /** `email.split('@')[0]`: everything before the first `@`, or all of it. */
  function LocalPart(email: string): (r: string)
    ensures r <= email
    ensures '@' !in r
    ensures r == email || email[|r|] == '@'
  {
    if email == [] || email[0] == '@' then []
    else [email[0]] + LocalPart(email[1..])
  }

  /** An address without `@` is its own local part. */
  lemma {:induction false} LocalPartOfPlainName(email: string)
    requires '@' !in email
    ensures LocalPart(email) == email
  {
    if email != [] {
      assert '@' !in email[1..] by {
        forall k | 0 <= k < |email[1..]| ensures email[1..][k] != '@' {
          assert email[1..][k] == email[k + 1];
        }
      }
      LocalPartOfPlainName(email[1..]);
    }
  }

  /** `user.email?.split('@')[0]`. */
  function EmailPrefix(email: Option<string>): (f: Field)
    ensures f.Undefined? <==> email.None?
  {
    if email.None? then Undefined else Text(LocalPart(email.value))
  }

  /** The name synced to the profile: `full_name || name || email prefix`. */
  function SyncedName(user: AuthUser): Field {
    Or(Or(MetaField(user.metadata, "full_name"), MetaField(user.metadata, "name")), EmailPrefix(user.email))
  }

  /** The avatar synced to the profile: `avatar_url || picture`. */
  function SyncedAvatar(user: AuthUser): Field {
    Or(MetaField(user.metadata, "avatar_url"), MetaField(user.metadata, "picture"))
  }

  /** The name falls back in its stated order. */
  lemma NameFallback(user: AuthUser)
    ensures Truthy(MetaField(user.metadata, "full_name")) ==> SyncedName(user) == MetaField(user.metadata, "full_name")
    ensures !Truthy(MetaField(user.metadata, "full_name")) && Truthy(MetaField(user.metadata, "name")) ==>
              SyncedName(user) == MetaField(user.metadata, "name")
    ensures !Truthy(MetaField(user.metadata, "full_name")) && !Truthy(MetaField(user.metadata, "name")) ==>
              SyncedName(user) == EmailPrefix(user.email)
  {
  }

  /** The avatar falls back from `avatar_url` to `picture`. */
  lemma AvatarFallback(user: AuthUser)
    ensures Truthy(MetaField(user.metadata, "avatar_url")) ==> SyncedAvatar(user) == MetaField(user.metadata, "avatar_url")
    ensures !Truthy(MetaField(user.metadata, "avatar_url")) ==> SyncedAvatar(user) == MetaField(user.metadata, "picture")
  {
  }

  /** With an email and no usable name in the metadata, the name is the address's local part. */
  lemma NameFromEmail(user: AuthUser)
    requires user.email.Some?
    requires !Truthy(MetaField(user.metadata, "full_name")) && !Truthy(MetaField(user.metadata, "name"))
    ensures SyncedName(user) == Text(LocalPart(user.email.value))
    ensures SyncedName(user).text <= user.email.value && '@' !in SyncedName(user).text
  {
  }

  /** A column of an upserted row: an undefined field is left out of the
      request, so an existing row keeps its value there. */
  function Column(current: Option<string>, f: Field): Option<string> {
    if f.Undefined? then current else FieldToColumn(f)
  }

  /** The row the upsert sends, applied to the row it conflicts with. */
  function Synced(p: Profile, email: Field, name: Field, avatar: Field): Profile {
    p.(email := Column(p.email, email), name := Column(p.name, name), avatarUrl := Column(p.avatarUrl, avatar))
  }

  /** `INSERT ... ON CONFLICT (id) DO UPDATE` of the synced fields: an existing
      row of that user takes the values sent and keeps the rest; without one, a
      new row is added with the values sent and nulls elsewhere. */
  function Upserted(profiles: seq<Profile>, id: UserId, email: Field, name: Field, avatar: Field): (r: seq<Profile>)
    ensures HasKey(profiles, ProfileKey, id) ==> |r| == |profiles|
    ensures HasKey(profiles, ProfileKey, id) ==> forall i :: 0 <= i < |r| ==>
              r[i] == if profiles[i].id == id then Synced(profiles[i], email, name, avatar) else profiles[i]
    ensures !HasKey(profiles, ProfileKey, id) ==>
              r == profiles + [Profile(id, FieldToColumn(email), FieldToColumn(name), FieldToColumn(avatar), None, None)]
  {
    if HasKey(profiles, ProfileKey, id) then
      seq(|profiles|, i requires 0 <= i < |profiles| =>
        if profiles[i].id == id then Synced(profiles[i], email, name, avatar) else profiles[i])
    else profiles + [Profile(id, FieldToColumn(email), FieldToColumn(name), FieldToColumn(avatar), None, None)]
  }

  /** The upsert keeps one row per user, leaves the user with exactly one row,
      and leaves every other user's row as it was. */
  lemma UpsertKeepsOneRowPerUser(profiles: seq<Profile>, id: UserId, email: Field, name: Field, avatar: Field)
    requires UniqueBy(profiles, ProfileKey)
    ensures UniqueBy(Upserted(profiles, id, email, name, avatar), ProfileKey)
    ensures HasKey(Upserted(profiles, id, email, name, avatar), ProfileKey, id)
    ensures forall p :: p in profiles && p.id != id ==> p in Upserted(profiles, id, email, name, avatar)
    ensures forall p :: p in Upserted(profiles, id, email, name, avatar) && p.id != id ==> p in profiles
  {
    var r := Upserted(profiles, id, email, name, avatar);
    if HasKey(profiles, ProfileKey, id) {
      forall p | p in profiles && p.id != id ensures p in r {
        var i :| 0 <= i < |profiles| && profiles[i] == p;
        assert r[i] == p;
      }
      forall p | p in r && p.id != id ensures p in profiles {
        var i :| 0 <= i < |r| && r[i] == p;
        assert profiles[i] == p;
      }
    } else {
      AppendKeepsUnique(profiles, Profile(id, FieldToColumn(email), FieldToColumn(name), FieldToColumn(avatar), None, None), ProfileKey);
      assert r[|profiles|].id == id;
    }
  }

  /** Where a successful sign-in goes: in development always the request's own
      origin; elsewhere the forwarded host over https when the proxy gave one. */
  function SuccessTarget(origin: string, next: string, isLocalEnv: bool, forwardedHost: Option<string>): (r: string)
    ensures isLocalEnv ==> r == origin + next
    ensures !isLocalEnv && forwardedHost.Some? && forwardedHost.value != "" ==> r == "https://" + forwardedHost.value + next
    ensures !isLocalEnv && (forwardedHost.None? || forwardedHost.value == "") ==> r == origin + next
  {
    if isLocalEnv then origin + next
    else if forwardedHost.Some? && forwardedHost.value != "" then "https://" + forwardedHost.value + next
    else origin + next
  }

  /** `searchParams.get('next') ?? '/'`: only a missing parameter falls back. */
  function NextPath(next: Option<string>): (r: string)
    ensures next.None? ==> r == "/"
    ensures next.Some? ==> r == next.value
  {
    if next.None? then "/" else next.value
  }

  /** Every success target ends with the `next` path. */
  lemma SuccessTargetEndsWithNext(origin: string, next: string, isLocalEnv: bool, forwardedHost: Option<string>)
    ensures var r := SuccessTarget(origin, next, isLocalEnv, forwardedHost);
            |r| >= |next| && r[|r| - |next|..] == next
  {
    var r := SuccessTarget(origin, next, isLocalEnv, forwardedHost);
    if isLocalEnv || forwardedHost.None? || forwardedHost.value == "" {
      assert r == origin + next;
      assert r[|origin|..] == next;
    } else {
      var prefix := "https://" + forwardedHost.value;
      assert r == prefix + next;
      assert r[|prefix|..] == next;
    }
  }

  /** The GET handler. `exchangeFails` is whether the code exchange reports an
      error, `user` what `getUser` then returns, `upsertFault` the error the
      upsert reports; the result is the redirect location. */
  method Callback(db: Database, origin: string, code: Option<string>, next: Option<string>,
                  exchangeFails: bool, user: Option<AuthUser>, upsertFault: Option<StoreError>,
                  isLocalEnv: bool, forwardedHost: Option<string>)
    returns (location: string)
    requires db.Valid()
    modifies db`profiles
    ensures db.Valid()
    ensures location == if code.Some? && code.value != "" && !exchangeFails
                        then SuccessTarget(origin, NextPath(next), isLocalEnv, forwardedHost)
                        else origin + ErrorPath
    ensures db.profiles == if code.Some? && code.value != "" && !exchangeFails && user.Some? && upsertFault.None?
                           then Upserted(old(db.profiles), user.value.id, if user.value.email.Some? then Text(user.value.email.value) else Undefined,
                                         SyncedName(user.value), SyncedAvatar(user.value))
                           else old(db.profiles)
  {
    var target := NextPath(next);
    if code.Some? && code.value != "" {
      if !exchangeFails {
        if user.Some? {
          var u := user.value;
          var email := if u.email.Some? then Text(u.email.value) else Undefined;
          if upsertFault.None? {
            UpsertKeepsOneRowPerUser(db.profiles, u.id, email, SyncedName(u), SyncedAvatar(u));
            db.profiles := Upserted(db.profiles, u.id, email, SyncedName(u), SyncedAvatar(u));
          }
        }
        return SuccessTarget(origin, target, isLocalEnv, forwardedHost);
      }
    }
    location := origin + ErrorPath;
  }
}
