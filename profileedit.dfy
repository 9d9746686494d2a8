/** The profile edit action of app/mypage/edit/actions.ts: a name check,
    then the public profile row, then the auth user's metadata, in that order. */
module ProfileEdit {
  import opened Common
  import opened Seqs
  import opened Database

  /** The four form fields; `FormData.get` yields a string or null. */
  datatype ProfileForm = ProfileForm(name: Option<string>, company: Option<string>,
                                     jobTitle: Option<string>, avatarUrl: Option<string>)

  const NameRequired: string := "이름을 입력해주세요."
  const ProfileUpdateFailed: string := "프로필 업데이트에 실패했습니다."
  const MyPage: string := "/mypage"

  /** `!name`: a missing or empty name. */
  predicate NameMissing(form: ProfileForm) {
    form.name.None? || form.name.value == ""
  }

  /** The caller's row with the four columns the form writes. */
  function Edited(p: Profile, form: ProfileForm): Profile {
    p.(name := form.name, company := form.company, jobTitle := form.jobTitle, avatarUrl := form.avatarUrl)
  }

  /** `UPDATE users SET name, company, job_title, avatar_url WHERE id = u`:
      the caller's row gets the form's four values and keeps its id and email;
      every other row stays as it is. */
  function UpdatedProfiles(profiles: seq<Profile>, u: UserId, form: ProfileForm): (r: seq<Profile>)
    ensures |r| == |profiles|
    ensures forall i :: 0 <= i < |r| ==> r[i].id == profiles[i].id && r[i].email == profiles[i].email
    ensures forall i :: 0 <= i < |r| && profiles[i].id == u ==>
              r[i].name == form.name && r[i].company == form.company
              && r[i].jobTitle == form.jobTitle && r[i].avatarUrl == form.avatarUrl
    ensures forall i :: 0 <= i < |r| && profiles[i].id != u ==> r[i] == profiles[i]
  {
    seq(|profiles|, i requires 0 <= i < |profiles| =>
      if profiles[i].id == u then Edited(profiles[i], form) else profiles[i])
  }

  /** Saving the same form twice has the effect of saving it once. */
  lemma UpdateIdempotent(profiles: seq<Profile>, u: UserId, form: ProfileForm)
    ensures UpdatedProfiles(UpdatedProfiles(profiles, u, form), u, form) == UpdatedProfiles(profiles, u, form)
  {
  }

  /** The update changes no id, so the primary key still holds. */
  lemma UpdateKeepsKeysUnique(profiles: seq<Profile>, u: UserId, form: ProfileForm)
    requires UniqueBy(profiles, ProfileKey)
    ensures UniqueBy(UpdatedProfiles(profiles, u, form), ProfileKey)
  {
  }

  /** `auth.updateUser({ data })`: the four keys are merged into the metadata,
      a null value stored as JSON null; other keys are kept. */
  function MergedMetadata(m: Metadata, form: ProfileForm): (r: Metadata)
    ensures r.Keys == m.Keys + {"name", "company", "job_title", "avatar_url"}
    ensures r["name"] == form.name && r["company"] == form.company
    ensures r["job_title"] == form.jobTitle && r["avatar_url"] == form.avatarUrl
    ensures forall k :: k in m && k !in {"name", "company", "job_title", "avatar_url"} ==> r[k] == m[k]
  {
    m["name" := form.name]["company" := form.company]["job_title" := form.jobTitle]["avatar_url" := form.avatarUrl]
  }

  /** `updateProfile`. `profileFault` is the error the row update reports, if
      any; `metadataFails` whether the metadata update reports one. */
  method UpdateProfile(db: Database, caller: Option<UserId>, form: ProfileForm,
                       profileFault: Option<StoreError>, metadataFails: bool)
    returns (outcome: Outcome<Reply>)
    requires db.Valid()
    modifies db`profiles, db`authMetadata
    ensures db.Valid()
    ensures caller.None? ==> outcome == Thrown("User not authenticated")
    ensures caller.Some? && NameMissing(form) ==> outcome == Returned(ErrorReply(NameRequired))
    ensures caller.Some? && !NameMissing(form) && profileFault.Some? ==> outcome == Returned(ErrorReply(ProfileUpdateFailed))
    ensures caller.Some? && !NameMissing(form) && profileFault.None? ==> outcome == Redirected(MyPage)
    ensures db.profiles == if outcome.Redirected? then UpdatedProfiles(old(db.profiles), caller.value, form)
                           else old(db.profiles)
    ensures db.authMetadata == if outcome.Redirected? && !metadataFails
                               then old(db.authMetadata)[caller.value := MergedMetadata(
                                      if caller.value in old(db.authMetadata) then old(db.authMetadata)[caller.value] else map[], form)]
                               else old(db.authMetadata)
  {
    if caller.None? {
      return Thrown("User not authenticated");
    }
    var u := caller.value;
    if NameMissing(form) {
      return Returned(ErrorReply(NameRequired));
    }
    if profileFault.Some? {
      return Returned(ErrorReply(ProfileUpdateFailed));
    }
    UpdateKeepsKeysUnique(db.profiles, u, form);
    db.profiles := UpdatedProfiles(db.profiles, u, form);
    if !metadataFails {
      var current := if u in db.authMetadata then db.authMetadata[u] else map[];
      db.authMetadata := db.authMetadata[u := MergedMetadata(current, form)];
    }
    outcome := Redirected(MyPage);
  }
}
