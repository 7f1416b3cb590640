/** The stand-in authentication of the store: any non-empty credentials log a
    user in, and nothing is checked against a stored record. The clock reading
    that becomes the user id is a parameter. */
module Session {
  import opened Types

  /** The part of `email` before its first `@`, or all of it when there is
      none: what `email.split('@')[0]` yields. */
  function LocalPart(email: string): (r: string)
    ensures |r| <= |email| && r == email[..|r|]
    ensures '@' !in r
    ensures |r| < |email| ==> email[|r|] == '@'
  {
    if email == [] || email[0] == '@' then []
    else
      var rest := LocalPart(email[1..]);
      assert email[1..][..|rest|] == email[1..|rest| + 1];
      [email[0]] + rest
  }

  /** An address split at its first `@` gives back its local part. */
  lemma {:induction false} LocalPartOfAddress(local: string, domain: string)
    requires '@' !in local
    ensures LocalPart(local + "@" + domain) == local
    decreases |local|
  {
    var email := local + "@" + domain;
    if local != [] {
      assert email[0] == local[0];
      assert email[1..] == local[1..] + "@" + domain;
      LocalPartOfAddress(local[1..], domain);
    }
  }

  /** `handleLogin`: with a non-empty email and a non-empty password the
      session becomes a logged-in user named after the email's local part;
      otherwise the session is left as it was. */
  function Login(user: Option<User>, email: string, password: string, now: int): (r: Option<User>)
    ensures email != [] && password != [] ==>
              r.Some? && r.value.id == now && r.value.email == email && r.value.isLoggedIn
              && |r.value.name| <= |email| && email[..|r.value.name|] == r.value.name && '@' !in r.value.name
              && (|r.value.name| < |email| ==> email[|r.value.name|] == '@')
    ensures email == [] || password == [] ==> r == user
  {
    if email != [] && password != [] then Some(User(now, LocalPart(email), email, true))
    else user
  }

  /** Logging in as `local@domain` gives a user named `local`. */
  lemma LoginNamesUserByLocalPart(user: Option<User>, local: string, domain: string, password: string, now: int)
    requires '@' !in local
    requires password != []
    ensures Login(user, local + "@" + domain, password, now) == Some(User(now, local, local + "@" + domain, true))
  {
    LocalPartOfAddress(local, domain);
  }

  /** `handleRegister`: a non-empty name and email and a password equal to its
      confirmation log in a user carrying the given name; otherwise the
      session is left as it was. */
  function Register(user: Option<User>, name: string, email: string, password: string,
                    confirmPassword: string, now: int): (r: Option<User>)
    ensures name != [] && email != [] && password == confirmPassword ==>
              r == Some(User(now, name, email, true))
    ensures name == [] || email == [] || password != confirmPassword ==> r == user
  {
    if name != [] && email != [] && password == confirmPassword then Some(User(now, name, email, true))
    else user
  }
}
