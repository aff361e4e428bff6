/**
 * The signed-in user of the front end (`front-end/src/AuthContext.jsx`): the record built from
 * an authentication session, the sign-in, sign-up and sign-out handlers that replace it, and the
 * copy kept in `localStorage` under 'auth.user'. The authentication service is outside the
 * model: whether it is configured and what its calls return are parameters.
 */
module AuthContext {
  import opened Wrappers
  import opened Text

  /**
   * The user record. Keys the source leaves out of a record are `None`; the session mapping
   * writes `phone` even when there is none, as null, which is also `None` here.
   */
  datatype AppUser = AppUser(id: Option<string>, email: Option<string>, name: Option<string>,
                             phone: Option<string>, provider: string, createdAt: Option<string>)

  /**
   * A session's user as the service reports it; an empty metadata name, phone or provider is a
   * falsy (missing) value.
   */
  datatype SessionUser = SessionUser(id: string, email: Option<string>, metadataName: string,
                                     metadataPhone: string, appProvider: string, createdAt: string)

  /** What a successful password sign-in returns about its user, if anything. */
  datatype SignedInUser = SignedInUser(id: string, createdAt: string)

  /** What a successful sign-up returns: a user (unless it is withheld) and whether a session started. */
  datatype SignUpData = SignUpData(user: Option<SessionUser>, hasSession: bool)

  const AuthUserKey: string := "auth.user"
  const NotConfiguredMessage: string := "Supabase is not configured"
  const MissingFieldsMessage: string := "Missing fields"

  /** The user name used when the metadata has none: the e-mail text before the first '@'. */
  function EmailPrefix(email: string): (prefix: string)
    ensures '@' !in prefix && StartsWith(email, prefix)
    ensures '@' !in email ==> prefix == email
    ensures |prefix| < |email| ==> email[|prefix|] == '@'
  {
    Before(email, '@')
  }

  /**
   * The record of a session user: metadata name, else the e-mail prefix (no name at all
   * without an e-mail); metadata phone, else null; app provider, else 'email'.
   */
  function UserOfSession(s: SessionUser): (u: AppUser)
    ensures u.id == Some(s.id) && u.email == s.email && u.createdAt == Some(s.createdAt)
    ensures s.metadataName != "" ==> u.name == Some(s.metadataName)
    ensures s.metadataName == "" ==> u.name == (if s.email.Some? then Some(EmailPrefix(s.email.value)) else None)
    ensures u.phone == (if s.metadataPhone != "" then Some(s.metadataPhone) else None)
    ensures u.provider == (if s.appProvider != "" then s.appProvider else "email")
  {
    AppUser(Some(s.id), s.email,
            if s.metadataName != "" then Some(s.metadataName)
            else if s.email.Some? then Some(EmailPrefix(s.email.value)) else None,
            if s.metadataPhone != "" then Some(s.metadataPhone) else None,
            if s.appProvider != "" then s.appProvider else "email",
            Some(s.createdAt))
  }

  /** Without a metadata name, the name is a prefix of the e-mail and holds no '@'. */
  lemma SessionNameFallback(s: SessionUser)
    requires s.metadataName == "" && s.email.Some?
    ensures UserOfSession(s).name.Some?
    ensures var n := UserOfSession(s).name.value; StartsWith(s.email.value, n) && '@' !in n
  {
  }

  /** Sign-up, checked before any remote call: every field must be non-empty. */
  predicate SignUpFieldsPresent(email: string, password: string, displayName: string) {
    email != "" && password != "" && displayName != ""
  }

  /** The signed-in user and the browser storage that mirrors it. */
  class Auth {
    var user: Option<AppUser>
    var storage: map<string, AppUser>

    /** 'auth.user' holds the user whenever there is one, and is absent otherwise. */
    ghost predicate Valid()
      reads this
    {
      (user.Some? ==> AuthUserKey in storage && storage[AuthUserKey] == user.value) &&
      (user.None? ==> AuthUserKey !in storage)
    }

    /** The other keys of the storage are left alone. */
    ghost predicate OthersKept(before: map<string, AppUser>)
      reads this
    {
      forall k :: k in before && k != AuthUserKey ==> k in storage && storage[k] == before[k]
    }

    /** `setUser` followed by the mirroring effect. */
    method SetUser(u: Option<AppUser>)
      modifies this
      ensures user == u && Valid() && OthersKept(old(storage))
      ensures storage == (if u.Some? then old(storage)[AuthUserKey := u.value] else old(storage) - {AuthUserKey})
    {
      user := u;
      if u.Some? {
        storage := storage[AuthUserKey := u.value];
      } else {
        storage := storage - {AuthUserKey};
      }
    }

    /** Mounting: no user yet, and the mirroring effect removes any stored one. */
    constructor(storage: map<string, AppUser>)
      ensures Valid() && user.None? && OthersKept(storage)
      ensures this.storage == storage - {AuthUserKey}
    {
      user := None;
      this.storage := storage - {AuthUserKey};
    }

    /** The initial `getSession`: a session user replaces the user, no session changes nothing. */
    method InitialSession(session: Option<SessionUser>)
      requires Valid()
      modifies this
      ensures Valid() && OthersKept(old(storage))
      ensures user == (if session.Some? then Some(UserOfSession(session.value)) else old(user))
    {
      if session.Some? {
        SetUser(Some(UserOfSession(session.value)));
      }
    }

    /** An auth-state change: the session's user, or no user when the session has none. */
    method OnAuthStateChange(session: Option<SessionUser>)
      requires Valid()
      modifies this
      ensures Valid() && OthersKept(old(storage))
      ensures user == (if session.Some? then Some(UserOfSession(session.value)) else None)
    {
      if session.Some? {
        SetUser(Some(UserOfSession(session.value)));
      } else {
        SetUser(None);
      }
    }

    /** The mocked Google sign-in. */
    method SignInWithGoogle()
      requires Valid()
      modifies this
      ensures Valid() && OthersKept(old(storage))
      ensures user == Some(AppUser(None, None, Some("Google User"), None, "google", None))
    {
      SetUser(Some(AppUser(None, None, Some("Google User"), None, "google", None)));
    }

    /** The mocked Apple sign-in. */
    method SignInWithApple()
      requires Valid()
      modifies this
      ensures Valid() && OthersKept(old(storage))
      ensures user == Some(AppUser(None, None, Some("Apple User"), None, "apple", None))
    {
      SetUser(Some(AppUser(None, None, Some("Apple User"), None, "apple", None)));
    }

    /**
     * `emailPasswordSignIn`: refused when the service is not configured, the service's error
     * passed on unchanged; on success the user is named after the e-mail prefix, provider
     * 'password'. The result is the thrown error's message.
     */
    method EmailPasswordSignIn(email: string, configured: bool, response: Result<Option<SignedInUser>, string>)
      returns (thrown: Option<string>)
      requires Valid()
      modifies this
      ensures Valid() && OthersKept(old(storage))
      ensures !configured ==> thrown == Some(NotConfiguredMessage) && user == old(user)
      ensures configured && response.Err? ==> thrown == Some(response.error) && user == old(user)
      ensures configured && response.Ok? ==>
        var signed := response.value;
        thrown.None? &&
        user == Some(AppUser(if signed.Some? then Some(signed.value.id) else None,
                             Some(email), Some(EmailPrefix(email)), None, "password",
                             if signed.Some? then Some(signed.value.createdAt) else None))
    {
      if !configured {
        return Some(NotConfiguredMessage);
      }
      if response.Err? {
        return Some(response.error);
      }
      var signed := response.value;
      SetUser(Some(AppUser(if signed.Some? then Some(signed.value.id) else None,
                           Some(email), Some(EmailPrefix(email)), None, "password",
                           if signed.Some? then Some(signed.value.createdAt) else None)));
      thrown := None;
    }

    /**
     * `signUp`: a missing field is refused before the service is asked; then the service must
     * be configured and accept. A returned user becomes the signed-in user under the chosen
     * display name; without one (e-mail confirmation pending) the user is unchanged.
     */
    method SignUp(email: string, password: string, displayName: string, configured: bool,
                  response: Result<SignUpData, string>)
      returns (called: bool, result: Result<SignUpData, string>)
      requires Valid()
      modifies this
      ensures Valid() && OthersKept(old(storage))
      ensures called <==> SignUpFieldsPresent(email, password, displayName) && configured
      ensures !SignUpFieldsPresent(email, password, displayName) ==> result == Err(MissingFieldsMessage)
      ensures SignUpFieldsPresent(email, password, displayName) && !configured ==> result == Err(NotConfiguredMessage)
      ensures called ==> result == response
      ensures result.Err? || result.value.user.None? ==> user == old(user)
      ensures result.Ok? && result.value.user.Some? ==>
        var r := result.value.user.value;
        user == Some(AppUser(Some(r.id), r.email, Some(displayName), None, "password", Some(r.createdAt)))
    {
      if !SignUpFieldsPresent(email, password, displayName) {
        return false, Err(MissingFieldsMessage);
      }
      if !configured {
        return false, Err(NotConfiguredMessage);
      }
      called := true;
      result := response;
      if response.Ok? && response.value.user.Some? {
        var r := response.value.user.value;
        SetUser(Some(AppUser(Some(r.id), r.email, Some(displayName), None, "password", Some(r.createdAt))));
      }
    }

    /** `signOut`: the service is told when configured; the user is cleared either way. */
    method SignOut(configured: bool) returns (called: bool)
      requires Valid()
      modifies this
      ensures Valid() && OthersKept(old(storage))
      ensures called == configured && user.None? && AuthUserKey !in storage
    {
      called := configured;
      SetUser(None);
    }
  }

  /** A password sign-in names the user after the e-mail text before the '@'. */
  lemma PasswordUserName(email: string)
    requires '@' in email
    ensures var n := EmailPrefix(email); |n| < |email| && email == n + "@" + email[|n| + 1..]
  {
    var n := EmailPrefix(email);
    assert email == email[..|n|] + [email[|n|]] + email[|n| + 1..];
  }
}
