/**
 * The Google sign-in lookup of src/models/user.js, over an in-memory user table.
 * Which database calls fail in a run is given by two flags.
 */
module UserModel {
  import opened Wrappers

  /** A row of `tbuser`, restricted to the columns the model reads or writes. */
  datatype UserRow = UserRow(username: string, google_id: Option<string>, email: string, roleid: int)

  /** The Google profile: its id, names, and its e-mail addresses in order. */
  datatype Profile = Profile(id: string, given_name: string, family_name: string, emails: seq<string>)

  datatype UserError = LookupFailed | NoEmail | InsertFailed

  const NewUserRole := 1

  /** `toLowerCase` on the ASCII letters. */
  function Lower(s: string): (r: string)
    ensures |r| == |s|
    ensures forall i :: 0 <= i < |s| ==> r[i] == if 'A' <= s[i] <= 'Z' then (s[i] as int + 32) as char else s[i]
  {
    if s == [] then [] else [if 'A' <= s[0] <= 'Z' then (s[0] as int + 32) as char else s[0]] + Lower(s[1..])
  }

  predicate NoUpper(s: string) {
    forall i :: 0 <= i < |s| ==> !('A' <= s[i] <= 'Z')
  }

  /** Lowering leaves no upper-case letter and is idempotent. */
  lemma LowerIsLower(s: string)
    ensures NoUpper(Lower(s))
    ensures Lower(Lower(s)) == Lower(s)
  {
  }

  /** The derived username: the lower-cased given name followed by the lower-cased family name. */
  function Username(p: Profile): (u: string)
    ensures |u| == |p.given_name| + |p.family_name|
    ensures u[..|p.given_name|] == Lower(p.given_name) && u[|p.given_name|..] == Lower(p.family_name)
    ensures NoUpper(u)
  {
    LowerIsLower(p.given_name);
    LowerIsLower(p.family_name);
    Lower(p.given_name) + Lower(p.family_name)
  }

  /** `eq('google_id', id)`: the first row linked to the Google account, if any. */
  function FindByGoogleId(rows: seq<UserRow>, id: string): (u: Option<UserRow>)
    ensures u.Some? ==> u.value in rows && u.value.google_id == Some(id)
    ensures u.None? <==> forall i :: 0 <= i < |rows| ==> rows[i].google_id != Some(id)
  {
    if rows == [] then None
    else if rows[0].google_id == Some(id) then Some(rows[0])
    else FindByGoogleId(rows[1..], id)
  }

  class UserTable {
    var rows: seq<UserRow>

    constructor (rows0: seq<UserRow>)
      ensures rows == rows0
    {
      rows := rows0;
    }

    /**
     * `findOrCreate`: the linked user when there is one; otherwise a new student
     * user (role 1) named after the profile, with the profile's first e-mail.
     */
    method FindOrCreate(profile: Profile, lookupFails: bool, insertFails: bool)
      returns (r: Result<UserRow, UserError>)
      modifies this
      ensures r.Failure? ==> rows == old(rows)
      ensures lookupFails ==> r == Failure(LookupFailed)
      ensures !lookupFails && FindByGoogleId(old(rows), profile.id).Some? ==>
        r == Success(FindByGoogleId(old(rows), profile.id).value) && rows == old(rows)
      ensures !lookupFails && FindByGoogleId(old(rows), profile.id).None? ==>
        if profile.emails == [] then r == Failure(NoEmail)
        else if insertFails then r == Failure(InsertFailed)
        else
          var u := UserRow(Username(profile), Some(profile.id), profile.emails[0], NewUserRole);
          r == Success(u) && rows == old(rows) + [u]
    {
      if lookupFails {
        return Failure(LookupFailed);
      }
      var existing := FindByGoogleId(rows, profile.id);
      if existing.Some? {
        return Success(existing.value);
      }
      var username := Username(profile);
      if profile.emails == [] {
        return Failure(NoEmail);
      }
      if insertFails {
        return Failure(InsertFailed);
      }
      var u := UserRow(username, Some(profile.id), profile.emails[0], NewUserRole);
      rows := rows + [u];
      r := Success(u);
    }
  }

  /** Once a sign-in has created the user, the next sign-in with that profile finds the same user. */
  lemma SecondSignInFindsUser(rows: seq<UserRow>, profile: Profile)
    requires FindByGoogleId(rows, profile.id).None? && profile.emails != []
    ensures var u := UserRow(Username(profile), Some(profile.id), profile.emails[0], NewUserRole);
      FindByGoogleId(rows + [u], profile.id) == Some(u)
  {
    var u := UserRow(Username(profile), Some(profile.id), profile.emails[0], NewUserRole);
    FindAppended(rows, u, profile.id);
  }

  lemma {:induction false} FindAppended(rows: seq<UserRow>, u: UserRow, id: string)
    requires FindByGoogleId(rows, id).None? && u.google_id == Some(id)
    ensures FindByGoogleId(rows + [u], id) == Some(u)
  {
    if rows != [] {
      assert (rows + [u])[1..] == rows[1..] + [u];
      FindAppended(rows[1..], u, id);
    }
  }
}
