/**
 * The account handlers of the site: sign-up, sign-in behind the
 * "I'm not a robot" challenge, the profile editor with its username re-key,
 * and the log-out and delete-account buttons.
 */
module Accounts {
  import opened Strings
  import opened Store

  // ---------------------------------------------------------------- sign-up

  datatype SignUpOutcome = MissingField | UsernameTaken | Created

  /** What the sign-up form's submit handler does to the store. Username and
      e-mail are trimmed, the password is not. */
  function SignUp(m: Entries, username: string, email: string, password: string): Step<SignUpOutcome> {
    var name := Trim(username);
    var mail := Trim(email);
    if name == "" || mail == "" || password == "" then Step(MissingField, m)
    else if UserKey(name) in m then Step(UsernameTaken, m)
    else Step(Created, m[UserKey(name) := Record(UserRecord(Some(name), Some(mail), Some(password), None, None))])
  }

  /** A sign-up with an empty field, or under a name that already has a
      record, is refused and writes nothing. */
  lemma SignUpRefusalWritesNothing(m: Entries, username: string, email: string, password: string)
    ensures var r := SignUp(m, username, email, password);
      && ((Trim(username) == "" || Trim(email) == "" || password == "") ==> r.outcome == MissingField)
      && ((Trim(username) != "" && Trim(email) != "" && password != "" && UserKey(Trim(username)) in m)
          ==> r.outcome == UsernameTaken)
      && (r.outcome != Created ==> r.after == m)
  {
  }

  /** A sign-up succeeds exactly when all three fields are present and the
      trimmed name is free; it then adds the one key `user_<trimmed name>`
      holding the trimmed name and e-mail and the untrimmed password, and
      leaves every other key as it was. */
  lemma SignUpAddsExactlyOneKey(m: Entries, username: string, email: string, password: string)
    ensures var r := SignUp(m, username, email, password);
      var key := UserKey(Trim(username));
      && (r.outcome == Created <==>
            Trim(username) != "" && Trim(email) != "" && password != "" && key !in m)
      && (r.outcome == Created ==>
            && r.after.Keys == m.Keys + {key}
            && r.after[key] == Record(UserRecord(Some(Trim(username)), Some(Trim(email)), Some(password), None, None))
            && forall k :: k in m ==> r.after[k] == m[k])
  {
  }

  lemma SignUpKeepsWellFormed(m: Entries, username: string, email: string, password: string)
    requires WellFormed(m)
    ensures WellFormed(SignUp(m, username, email, password).after)
  {
    RecordWriteKeepsWellFormed(m, Trim(username), UserRecord(Some(Trim(username)), Some(Trim(email)), Some(password), None, None));
  }

  /** Signing up twice under the same (trimmed) name fails the second time and
      writes nothing. */
  lemma SecondSignUpIsRefused(m: Entries, username: string, email: string, password: string,
                              username': string, email': string, password': string)
    requires SignUp(m, username, email, password).outcome == Created
    requires Trim(username') == Trim(username) && Trim(email') != "" && password' != ""
    ensures var after := SignUp(m, username, email, password).after;
      SignUp(after, username', email', password') == Step(UsernameTaken, after)
  {
  }

  /** The submit handler of the sign-up form. */
  method SubmitSignUp(store: LocalStore, username: string, email: string, password: string)
      returns (outcome: SignUpOutcome)
    requires store.Valid()
    modifies store
    ensures store.Valid()
    ensures Step(outcome, store.entries) == SignUp(old(store.entries), username, email, password)
  {
    SignUpKeepsWellFormed(store.entries, username, email, password);
    var name := Trim(username);
    var mail := Trim(email);
    if name == "" || mail == "" || password == "" {
      return MissingField;
    }
    if UserKey(name) in store.entries {
      return UsernameTaken;
    }
    store.SetItem(UserKey(name), Record(UserRecord(Some(name), Some(mail), Some(password), None, None)));
    outcome := Created;
  }

  // ---------------------------------------------------------------- sign-in

  /** The characters the challenge text is drawn from: no I, O, i, l, o, 0 or 1. */
  const CaptchaAlphabet: string := "ABCDEFGHJKLMNPQRSTUVWXYZabcdefghjkmnpqrstuvwxyz23456789"

  /** A challenge the generator can produce: five characters of the alphabet. */
  predicate IsChallenge(s: string) {
    |s| == 5 && forall i :: 0 <= i < |s| ==> s[i] in CaptchaAlphabet
  }

  const HomePage: string := "X-15-Website.html"

  /** `urlParams.get('redirect') || 'X-15-Website.html'` */
  function RedirectTarget(redirect: Option<string>): string {
    if redirect.Some? && redirect.value != "" then redirect.value else HomePage
  }

  datatype SignInOutcome = CaptchaRequired | InvalidCredentials | Authenticated(target: string)

  /** The stored record for `username` has exactly this password. */
  predicate PasswordMatches(m: Entries, username: string, password: string) {
    match StoredUser(m, username)
    case Some(r) => r.password == Some(password)
    case None => false
  }

  /** What the sign-in form's submit handler does to the store. The username
      is looked up as typed, without trimming. */
  function SignIn(m: Entries, captchaChecked: bool, username: string, password: string,
                  redirect: Option<string>): Step<SignInOutcome>
  {
    if !captchaChecked then Step(CaptchaRequired, m)
    else if UserKey(username) !in m then Step(InvalidCredentials, m)
    else if PasswordMatches(m, username, password) then
      Step(Authenticated(RedirectTarget(redirect)), m[SessionKey := Plain(username)])
    else Step(InvalidCredentials, m)
  }

  /** Sign-in sets the session to the typed username exactly when the challenge
      is passed, a record exists under that name and its password is the one
      typed; otherwise nothing is written. */
  lemma SignInSetsSessionOnlyOnMatch(m: Entries, captchaChecked: bool, username: string, password: string,
                                     redirect: Option<string>)
    ensures var r := SignIn(m, captchaChecked, username, password, redirect);
      && (r.outcome.Authenticated? <==>
            captchaChecked && StoredUser(m, username).Some? && StoredUser(m, username).value.password == Some(password))
      && (r.outcome == CaptchaRequired <==> !captchaChecked)
      && (captchaChecked && !r.outcome.Authenticated? ==> r.outcome == InvalidCredentials)
      && (r.outcome.Authenticated? ==>
            r.after == m[SessionKey := Plain(username)] && Session(r.after) == Some(username)
            && r.outcome.target == RedirectTarget(redirect))
      && (!r.outcome.Authenticated? ==> r.after == m)
  {
  }

  lemma SignInKeepsWellFormed(m: Entries, captchaChecked: bool, username: string, password: string,
                              redirect: Option<string>)
    requires WellFormed(m)
    ensures WellFormed(SignIn(m, captchaChecked, username, password, redirect).after)
  {
    SessionWriteKeepsWellFormed(m, username);
  }

  /** After a successful sign-up, signing in with the stored (trimmed) name and
      the same password, once the challenge is passed, succeeds. */
  lemma SignUpThenSignIn(m: Entries, username: string, email: string, password: string, redirect: Option<string>)
    requires SignUp(m, username, email, password).outcome == Created
    ensures var after := SignUp(m, username, email, password).after;
      SignIn(after, true, Trim(username), password, redirect)
        == Step(Authenticated(RedirectTarget(redirect)), after[SessionKey := Plain(Trim(username))])
  {
  }

  /** Sign-up trims the name and sign-in does not: an account made as
      " alice " is found as "alice" and not as " alice ". */
  lemma PaddedNameOnlySignsInTrimmed()
    ensures var m := SignUp(map[], " alice ", "a@example.org", "pw").after;
      && SignIn(m, true, " alice ", "pw", None).outcome == InvalidCredentials
      && SignIn(m, true, "alice", "pw", None).outcome == Authenticated(HomePage)
  {
    assert Trim(" alice ") == "alice" by {
      assert " alice "[1..] == "alice ";
      assert TrimStart(" alice ") == "alice ";
      assert "alice "[..5] == "alice";
      assert TrimEnd("alice ") == "alice";
    }
    assert Trim("a@example.org") == "a@example.org";
    assert UserKey(" alice ") != UserKey("alice") by {
      assert UserKey(" alice ")[5] != UserKey("alice")[5];
    }
  }

  /** The sign-in page: the challenge state and the submit handler. */
  class SignInPage {
    const store: LocalStore
    /** The `redirect` query parameter of the page's URL. */
    const redirect: Option<string>
    /** The "I'm not a robot" checkbox has been ticked. */
    var robotTicked: bool
    /** The challenge text currently shown (`currentCaptchaText`). */
    var captchaText: string
    /** The challenge panel is on screen. */
    var challengeShown: bool
    /** The challenge has been passed (the `checked` class of the box). */
    var captchaChecked: bool

    constructor (store: LocalStore, redirect: Option<string>)
      ensures this.store == store && this.redirect == redirect
      ensures !robotTicked && captchaText == "" && !challengeShown && !captchaChecked
    {
      this.store := store;
      this.redirect := redirect;
      robotTicked, captchaText, challengeShown, captchaChecked := false, "", false, false;
    }

    /** A click on the checkbox, followed by the timer that shows a fresh
        challenge `text` (the random choice is the caller's). */
    method TickRobotBox(text: string)
      requires IsChallenge(text)
      modifies this`robotTicked, this`captchaText, this`challengeShown
      ensures robotTicked
      ensures if !old(robotTicked) && !captchaChecked then captchaText == text && challengeShown
              else captchaText == old(captchaText) && challengeShown == old(challengeShown)
    {
      if !robotTicked {
        robotTicked := true;
        if !captchaChecked {
          captchaText := text;
          challengeShown := true;
        }
      }
    }

    /** The verify button: the typed `input` passes the challenge exactly when it
        equals the shown text; otherwise `nextText` replaces the shown text and
        the challenge is shown. The handler does not look at whether a challenge
        is on screen, so before the first one the text compared is `""`. */
    method Verify(input: string, nextText: string)
      requires IsChallenge(nextText)
      modifies this`captchaText, this`challengeShown, this`captchaChecked
      ensures input == old(captchaText) ==> captchaChecked && !challengeShown && captchaText == old(captchaText)
      ensures input != old(captchaText) ==>
        captchaChecked == old(captchaChecked) && challengeShown && captchaText == nextText
    {
      if input == captchaText {
        challengeShown := false;
        captchaChecked := true;
      } else {
        captchaText := nextText;
        challengeShown := true;
      }
    }

    /** The submit handler of the sign-in form. */
    method Submit(username: string, password: string) returns (outcome: SignInOutcome)
      requires store.Valid()
      modifies store
      ensures store.Valid()
      ensures Step(outcome, store.entries) == SignIn(old(store.entries), captchaChecked, username, password, redirect)
    {
      SignInKeepsWellFormed(store.entries, captchaChecked, username, password, redirect);
      if !captchaChecked {
        return CaptchaRequired;
      }
      if UserKey(username) !in store.entries {
        return InvalidCredentials;
      }
      var stored := StoredUser(store.entries, username);
      if stored.Some? && stored.value.password == Some(password) {
        store.SetItem(SessionKey, Plain(username));
        outcome := Authenticated(RedirectTarget(redirect));
      } else {
        outcome := InvalidCredentials;
      }
    }
  }

  /** A verify click on a freshly loaded page, before any challenge is shown,
      compares against the empty text: an empty input passes the challenge. */
  method VerifyBeforeChallenge(store: LocalStore, redirect: Option<string>) returns (page: SignInPage)
    ensures page.captchaChecked && !page.robotTicked
  {
    page := new SignInPage(store, redirect);
    assert IsChallenge(CaptchaAlphabet[..5]) by {
      forall i | 0 <= i < 5 ensures CaptchaAlphabet[..5][i] in CaptchaAlphabet {
        assert CaptchaAlphabet[..5][i] == CaptchaAlphabet[i];
      }
    }
    page.Verify("", CaptchaAlphabet[..5]);
  }

  // ---------------------------------------------------------------- profile

  datatype ProfileOutcome = NameTaken | Saved(finalName: string)

  /** The outcome, the store afterwards, and the page's user object afterwards. */
  datatype ProfileStep = ProfileStep(outcome: ProfileOutcome, after: Entries, data: UserRecord)

  /** What one submit of the profile form does, for a page that holds the
      name `current` and the user object `data`. The new name and the
      description are trimmed; `pfpData` is the uploaded image, if any. */
  function ProfileSubmit(m: Entries, current: string, data: UserRecord,
                         rawName: string, rawDescription: string, pfpData: Option<string>): ProfileStep
  {
    var newName := Trim(rawName);
    var renaming := newName != "" && newName != current;
    if renaming && UserKey(newName) in m then ProfileStep(NameTaken, m, data)
    else
      var final := if renaming then newName else current;
      var d := data.(username := Some(final), description := Some(Trim(rawDescription)),
                     pfp := if pfpData.Some? && pfpData.value != "" then pfpData else data.pfp);
      var saved := m[UserKey(final) := Record(d)];
      var after := if final != current then (saved - {UserKey(current)})[SessionKey := Plain(final)] else saved;
      ProfileStep(Saved(final), after, d)
  }

  /** Asking for a name that is taken by someone else changes no key, not the
      session, and not the page's user object. */
  lemma ProfileTakenNameChangesNothing(m: Entries, current: string, data: UserRecord,
                                       rawName: string, rawDescription: string, pfpData: Option<string>)
    requires Trim(rawName) != "" && Trim(rawName) != current && UserKey(Trim(rawName)) in m
    ensures ProfileSubmit(m, current, data, rawName, rawDescription, pfpData) == ProfileStep(NameTaken, m, data)
  {
  }

  /** The fields of the saved object: the final name, the trimmed description,
      the uploaded image only when one was given, and everything else kept. */
  predicate SavedFields(data: UserRecord, d: UserRecord, final: string, rawDescription: string, pfpData: Option<string>) {
    && d.username == Some(final)
    && d.description == Some(Trim(rawDescription))
    && d.pfp == (if pfpData.Some? && pfpData.value != "" then pfpData else data.pfp)
    && d.email == data.email && d.password == data.password
  }

  /** A rename to a free name removes `user_<old>`, writes the object under
      `user_<new>`, moves the session to the new name, and touches nothing else. */
  lemma ProfileRenameRekeys(m: Entries, current: string, data: UserRecord,
                            rawName: string, rawDescription: string, pfpData: Option<string>)
    requires Trim(rawName) != "" && Trim(rawName) != current && UserKey(Trim(rawName)) !in m
    ensures var r := ProfileSubmit(m, current, data, rawName, rawDescription, pfpData);
      var newName := Trim(rawName);
      && r.outcome == Saved(newName)
      && SavedFields(data, r.data, newName, rawDescription, pfpData)
      && UserKey(current) !in r.after
      && StoredUser(r.after, newName) == Some(r.data)
      && Session(r.after) == Some(newName)
      && r.after.Keys == (m.Keys - {UserKey(current)}) + {UserKey(newName), SessionKey}
      && forall k :: k in m && k != UserKey(current) && k != UserKey(newName) && k != SessionKey ==> r.after[k] == m[k]
  {
    var newName := Trim(rawName);
    UserKeyInjective(newName, current);
    UserKeyNotReserved(newName);
    UserKeyNotReserved(current);
  }

  /** Without a rename only `user_<current>` is rewritten; the session and every
      other key stay as they were. */
  lemma ProfileEditInPlace(m: Entries, current: string, data: UserRecord,
                           rawName: string, rawDescription: string, pfpData: Option<string>)
    requires Trim(rawName) == "" || Trim(rawName) == current
    ensures var r := ProfileSubmit(m, current, data, rawName, rawDescription, pfpData);
      && r.outcome == Saved(current)
      && SavedFields(data, r.data, current, rawDescription, pfpData)
      && r.after.Keys == m.Keys + {UserKey(current)}
      && StoredUser(r.after, current) == Some(r.data)
      && Session(r.after) == Session(m)
      && forall k :: k in m && k != UserKey(current) ==> r.after[k] == m[k]
  {
    UserKeyNotReserved(current);
  }

  lemma ProfileKeepsWellFormed(m: Entries, current: string, data: UserRecord,
                               rawName: string, rawDescription: string, pfpData: Option<string>)
    requires WellFormed(m)
    ensures WellFormed(ProfileSubmit(m, current, data, rawName, rawDescription, pfpData).after)
  {
    var r := ProfileSubmit(m, current, data, rawName, rawDescription, pfpData);
    if r.outcome.Saved? {
      var final := r.outcome.finalName;
      var saved := m[UserKey(final) := Record(r.data)];
      RecordWriteKeepsWellFormed(m, final, r.data);
      if final != current {
        assert WellFormed(saved - {UserKey(current)});
        SessionWriteKeepsWellFormed(saved - {UserKey(current)}, final);
      }
    }
  }

  /** When the page's name is the session's name, a submit leaves the session on
      the name the page should hold next: the final name after a save, and the
      old one after a refusal. */
  lemma ProfileSessionFollowsFinalName(m: Entries, current: string, data: UserRecord,
                                       rawName: string, rawDescription: string, pfpData: Option<string>)
    requires Session(m) == Some(current)
    ensures var r := ProfileSubmit(m, current, data, rawName, rawDescription, pfpData);
      match r.outcome
      case NameTaken => Session(r.after) == Some(current)
      case Saved(final) => Session(r.after) == Some(final) && StoredUser(r.after, final) == Some(r.data)
  {
    var r := ProfileSubmit(m, current, data, rawName, rawDescription, pfpData);
    if r.outcome.Saved? {
      var final := r.outcome.finalName;
      UserKeyNotReserved(final);
      UserKeyInjective(final, current);
    }
  }

  /** The page keeps the name it read at start-up, so after a rename a second
      submit without a new name writes the object back under the old key while
      the session stays on the new name. */
  lemma StaleNameRestoresOldRecord()
    ensures
      var alice := UserRecord(Some("alice"), Some("a@example.org"), Some("pw"), None, None);
      var m := map[UserKey("alice") := Record(alice), SessionKey := Plain("alice")];
      var first := ProfileSubmit(m, "alice", alice, "bob", "", None);
      var second := ProfileSubmit(first.after, "alice", first.data, "", "hi", None);
      && first.outcome == Saved("bob") && UserKey("alice") !in first.after
      && second.outcome == Saved("alice")
      && StoredUser(second.after, "alice").Some? && StoredUser(second.after, "bob").Some?
      && Session(second.after) == Some("bob")
  {
    assert Trim("bob") == "bob";
    assert Trim("") == "";
    assert Trim("hi") == "hi";
    UserKeyInjective("alice", "bob");
    UserKeyNotReserved("alice");
    UserKeyNotReserved("bob");
  }

  /** A page that takes on the final name after each save keeps exactly one
      record: a rename followed by an edit leaves `user_<old>` absent, the
      record under the new name, and the session on the new name. */
  lemma TrackedRenameThenEditKeepsOneRecord(m: Entries, current: string, data: UserRecord,
                                            rawName: string, rawDescription: string, pfpData: Option<string>,
                                            rawDescription': string, pfpData': Option<string>)
    requires Session(m) == Some(current)
    requires Trim(rawName) != "" && Trim(rawName) != current && UserKey(Trim(rawName)) !in m
    ensures
      var first := ProfileSubmit(m, current, data, rawName, rawDescription, pfpData);
      var second := ProfileSubmit(first.after, Trim(rawName), first.data, "", rawDescription', pfpData');
      && first.outcome == Saved(Trim(rawName))
      && second.outcome == Saved(Trim(rawName))
      && UserKey(current) !in second.after
      && StoredUser(second.after, Trim(rawName)) == Some(second.data)
      && Session(second.after) == Some(Trim(rawName))
  {
    var newName := Trim(rawName);
    ProfileRenameRekeys(m, current, data, rawName, rawDescription, pfpData);
    var first := ProfileSubmit(m, current, data, rawName, rawDescription, pfpData);
    assert Trim("") == "";
    ProfileEditInPlace(first.after, newName, first.data, "", rawDescription', pfpData');
    UserKeyInjective(newName, current);
  }

  /** The profile page as written: the session name and the user object are
      read once, at start-up; the object is then updated by each save, the
      name never is. */
  class ProfileEditor {
    const store: LocalStore
    const loggedInUser: string
    var currentUserData: UserRecord

    constructor (store: LocalStore)
      requires store.Valid() && LoggedIn(store.entries)
      ensures this.store == store && loggedInUser == Session(store.entries).value
      ensures currentUserData == UserOrEmpty(store.entries, loggedInUser)
    {
      this.store := store;
      loggedInUser := Session(store.entries).value;
      currentUserData := UserOrEmpty(store.entries, Session(store.entries).value);
    }

    /** `processUpdate`, with the form's fields trimmed as the submit handler does. */
    method Submit(rawName: string, rawDescription: string, pfpData: Option<string>) returns (outcome: ProfileOutcome)
      requires store.Valid()
      modifies this`currentUserData, store
      ensures store.Valid()
      ensures ProfileStep(outcome, store.entries, currentUserData)
           == ProfileSubmit(old(store.entries), loggedInUser, old(currentUserData), rawName, rawDescription, pfpData)
    {
      ProfileKeepsWellFormed(store.entries, loggedInUser, currentUserData, rawName, rawDescription, pfpData);
      var newName := Trim(rawName);
      var newDescription := Trim(rawDescription);
      var finalName := loggedInUser;
      if newName != "" && newName != loggedInUser {
        if UserKey(newName) in store.entries {
          return NameTaken;
        }
        finalName := newName;
      }
      currentUserData := currentUserData.(username := Some(finalName), description := Some(newDescription));
      if pfpData.Some? && pfpData.value != "" {
        currentUserData := currentUserData.(pfp := pfpData);
      }
      store.SetItem(UserKey(finalName), Record(currentUserData));
      if finalName != loggedInUser {
        store.RemoveItem(UserKey(loggedInUser));
        store.SetItem(SessionKey, Plain(finalName));
      }
      outcome := Saved(finalName);
    }
  }

  /** The profile page as evidently intended: after a save it holds the final
      name, so its name and the session's stay the same. */
  class TrackingProfileEditor {
    const store: LocalStore
    var loggedInUser: string
    var currentUserData: UserRecord

    ghost predicate Valid()
      reads this, store
    {
      store.Valid() && Session(store.entries) == Some(loggedInUser)
    }

    constructor (store: LocalStore)
      requires store.Valid() && LoggedIn(store.entries)
      ensures Valid() && this.store == store && loggedInUser == Session(store.entries).value
      ensures currentUserData == UserOrEmpty(store.entries, loggedInUser)
    {
      this.store := store;
      loggedInUser := Session(store.entries).value;
      currentUserData := UserOrEmpty(store.entries, Session(store.entries).value);
    }

    method Submit(rawName: string, rawDescription: string, pfpData: Option<string>) returns (outcome: ProfileOutcome)
      requires Valid()
      modifies this`loggedInUser, this`currentUserData, store
      ensures Valid()
      ensures ProfileStep(outcome, store.entries, currentUserData)
           == ProfileSubmit(old(store.entries), old(loggedInUser), old(currentUserData), rawName, rawDescription, pfpData)
      ensures loggedInUser == if outcome.Saved? then outcome.finalName else old(loggedInUser)
    {
      ProfileKeepsWellFormed(store.entries, loggedInUser, currentUserData, rawName, rawDescription, pfpData);
      ProfileSessionFollowsFinalName(store.entries, loggedInUser, currentUserData, rawName, rawDescription, pfpData);
      var newName := Trim(rawName);
      var newDescription := Trim(rawDescription);
      var finalName := loggedInUser;
      if newName != "" && newName != loggedInUser {
        if UserKey(newName) in store.entries {
          return NameTaken;
        }
        finalName := newName;
      }
      currentUserData := currentUserData.(username := Some(finalName), description := Some(newDescription));
      if pfpData.Some? && pfpData.value != "" {
        currentUserData := currentUserData.(pfp := pfpData);
      }
      store.SetItem(UserKey(finalName), Record(currentUserData));
      if finalName != loggedInUser {
        store.RemoveItem(UserKey(loggedInUser));
        store.SetItem(SessionKey, Plain(finalName));
      }
      loggedInUser := finalName;
      outcome := Saved(finalName);
    }
  }

  // ------------------------------------------------- log out, delete account

  /** `localStorage.removeItem('loggedInUser')` */
  function Logout(m: Entries): Entries {
    m - {SessionKey}
  }

  /** The delete-account button for the name `user`; `confirmed` is the answer
      to the confirmation dialog. */
  function DeleteAccount(m: Entries, user: string, confirmed: bool): Entries {
    if confirmed then m - {UserKey(user)} - {SessionKey} else m
  }

  /** Log-out removes the session key and nothing else. */
  lemma LogoutRemovesOnlySession(m: Entries)
    ensures Logout(m).Keys == m.Keys - {SessionKey}
    ensures forall k :: k in Logout(m) ==> Logout(m)[k] == m[k]
    ensures !LoggedIn(Logout(m)) && ChatLog(Logout(m)) == ChatLog(m)
  {
  }

  /** Deleting an account removes exactly `user_<name>` and the session key; a
      cancelled dialog removes nothing. */
  lemma DeleteRemovesRecordAndSession(m: Entries, user: string, confirmed: bool)
    ensures var after := DeleteAccount(m, user, confirmed);
      && (confirmed ==>
            && after.Keys == m.Keys - {UserKey(user), SessionKey}
            && (forall k :: k in after ==> after[k] == m[k])
            && StoredUser(after, user) == None && !LoggedIn(after))
      && (!confirmed ==> after == m)
  {
  }

  lemma LogoutAndDeleteKeepWellFormed(m: Entries, user: string, confirmed: bool)
    requires WellFormed(m)
    ensures WellFormed(Logout(m)) && WellFormed(DeleteAccount(m, user, confirmed))
  {
  }

  /** The controls shown to a signed-in user: the log-out and delete-account
      buttons, which act on the name read when they were set up. */
  class AccountControls {
    const store: LocalStore
    const loggedInUser: string

    constructor (store: LocalStore)
      requires LoggedIn(store.entries)
      ensures this.store == store && loggedInUser == Session(store.entries).value
    {
      this.store := store;
      loggedInUser := Session(store.entries).value;
    }

    method LogOut()
      requires store.Valid()
      modifies store
      ensures store.Valid() && store.entries == Logout(old(store.entries))
    {
      LogoutAndDeleteKeepWellFormed(store.entries, loggedInUser, false);
      store.RemoveItem(SessionKey);
    }

    method Delete(confirmed: bool)
      requires store.Valid()
      modifies store
      ensures store.Valid() && store.entries == DeleteAccount(old(store.entries), loggedInUser, confirmed)
    {
      LogoutAndDeleteKeepWellFormed(store.entries, loggedInUser, confirmed);
      if confirmed {
        store.RemoveItem(UserKey(loggedInUser));
        store.RemoveItem(SessionKey);
      }
    }
  }

  /** None of the account handlers touches the chat log. */
  lemma AccountStepsKeepChatLog(m: Entries, username: string, email: string, password: string,
                                captchaChecked: bool, redirect: Option<string>,
                                current: string, data: UserRecord, rawDescription: string, pfpData: Option<string>,
                                confirmed: bool)
    ensures ChatLog(SignUp(m, username, email, password).after) == ChatLog(m)
    ensures ChatLog(SignIn(m, captchaChecked, username, password, redirect).after) == ChatLog(m)
    ensures ChatLog(ProfileSubmit(m, current, data, username, rawDescription, pfpData).after) == ChatLog(m)
    ensures ChatLog(DeleteAccount(m, current, confirmed)) == ChatLog(m)
  {
    UserKeyNotReserved(Trim(username));
    UserKeyNotReserved(current);
  }
}
