/**
 * The session: a fixed list of demonstration accounts, log in and out,
 * registration (which only opens a session, it adds no account), and
 * changing the wallet address of the logged-in user. The persisted copy of
 * the session is a field; the network delay is left out.
 */
module AuthContext {
  import opened Types

  /** A demonstration account: the user record and its password, which never enters the session. */
  datatype Account = Account(profile: User, password: string)

  datatype AuthError = InvalidCredentials | UserExists | NoUserLoggedIn | InvalidWalletFormat

  /** The wallet address every demonstration account and every new user gets. */
  const DEFAULT_WALLET: string := "xMfokpvpLTKNgbqCJqGXR9rX63uwT2ywzN"

  /** The balance a newly registered user starts with. */
  const SIGNUP_BALANCE: real := 100.0

  /** The two demonstration accounts; `loadedAt` is when the application started. */
  function MockUsers(loadedAt: int): (r: seq<Account>)
    ensures |r| == 2
    ensures r[0].profile.role == Admin && r[1].profile.role == Member
    ensures r[0].profile.id != r[1].profile.id && r[0].profile.email != r[1].profile.email
    ensures forall i :: 0 <= i < |r| ==>
              r[i].profile.walletAddress == DEFAULT_WALLET && r[i].profile.createdAt == loadedAt
              && r[i].profile.balance > 0.0
  {
    [ Account(User("1", "admin", "admin@example.com", Admin, 1000.0, DEFAULT_WALLET,
                   Some("https://i.pravatar.cc/150?u=admin"), loadedAt), "admin123"),
      Account(User("2", "user", "user@example.com", Member, 500.0, DEFAULT_WALLET,
                   Some("https://i.pravatar.cc/150?u=user"), loadedAt), "user123") ]
  }

  /** The first account with both the email and the password. */
  function FindAccount(accounts: seq<Account>, email: string, password: string): (r: Option<Account>)
    ensures r.None? <==> forall i :: 0 <= i < |accounts| ==>
                           !(accounts[i].profile.email == email && accounts[i].password == password)
    ensures r.Some? ==> r.value in accounts && r.value.profile.email == email && r.value.password == password
  {
    if accounts == [] then None
    else if accounts[0].profile.email == email && accounts[0].password == password then Some(accounts[0])
    else FindAccount(accounts[1..], email, password)
  }

  /** Some account already uses the email: exactly when some password would log in with it. */
  function EmailTaken(accounts: seq<Account>, email: string): (r: bool)
    ensures r <==> exists password :: FindAccount(accounts, email, password).Some?
  {
    if exists i :: 0 <= i < |accounts| && accounts[i].profile.email == email then
      var i :| 0 <= i < |accounts| && accounts[i].profile.email == email;
      assert FindAccount(accounts, email, accounts[i].password).Some?;
      true
    else
      false
  }

  function IsAsciiAlphanumeric(c: char): bool
  {
    'A' <= c <= 'Z' || 'a' <= c <= 'z' || '0' <= c <= '9'
  }

  /** `[A-Za-z0-9]{n}$`: the string is exactly `n` ASCII letters or digits, matched one character at a time. */
  function MatchesAlphanumerics(s: string, n: nat): (r: bool)
    ensures r <==> |s| == n && forall i :: 0 <= i < |s| ==> IsAsciiAlphanumeric(s[i])
  {
    if s == [] then n == 0
    else
      assert forall i :: 0 < i < |s| ==> s[1..][i - 1] == s[i];
      n > 0 && IsAsciiAlphanumeric(s[0]) && MatchesAlphanumerics(s[1..], n - 1)
  }

  /**
   * The wallet format `^x[A-Za-z0-9]{33}$`: 34 characters, an `x`, then ASCII
   * letters or digits; the same strings the pattern matches left to right.
   */
  function ValidWallet(address: string): (r: bool)
    ensures r <==> |address| > 0 && address[0] == 'x' && MatchesAlphanumerics(address[1..], 33)
  {
    assert forall i :: 1 <= i < |address| ==> address[1..][i - 1] == address[i];
    |address| == 34 && address[0] == 'x' && forall i :: 1 <= i < 34 ==> IsAsciiAlphanumeric(address[i])
  }

  /** The shared default wallet satisfies the format the wallet form enforces. */
  lemma DefaultWalletValid()
    ensures ValidWallet(DEFAULT_WALLET)
  {
    var w := DEFAULT_WALLET;
    assert |w| == 34;
    forall i | 1 <= i < 34 ensures IsAsciiAlphanumeric(w[i]) {
    }
  }

  /** Only the two documented credential pairs open a session, with the admin and member roles. */
  lemma MockCredentials(loadedAt: int, email: string, password: string)
    ensures var r := FindAccount(MockUsers(loadedAt), email, password);
            r.Some? <==> (email == "admin@example.com" && password == "admin123")
                         || (email == "user@example.com" && password == "user123")
    ensures var r := FindAccount(MockUsers(loadedAt), email, password);
            r.Some? ==> (r.value.profile.role == Admin <==> email == "admin@example.com")
  {
  }

  class AuthState {
    const accounts: seq<Account>
    /** The logged-in user, if any. */
    var user: Option<User>
    /** The copy of the session kept in the browser's storage. */
    var saved: Option<User>
    var isLoading: bool

    /** The session in memory and its stored copy agree. */
    predicate Synced()
      reads this
    {
      user == saved
    }

    /** At start-up the stored session, if any, is restored. */
    constructor (accounts: seq<Account>, saved: Option<User>)
      ensures this.accounts == accounts && this.saved == saved && user == saved && !isLoading
      ensures Synced()
    {
      this.accounts := accounts;
      this.saved := saved;
      user := saved;
      isLoading := false;
    }

    function IsAuthenticated(): (r: bool)
      reads this
      ensures r <==> user.Some?
    {
      user.Some?
    }

    /**
     * `login`: the first account matching both email and password becomes
     * the session, without its password; no match leaves the session as it
     * was and fails.
     */
    method Login(email: string, password: string) returns (r: Option<AuthError>)
      modifies this
      ensures var found := FindAccount(accounts, email, password);
              found.None? ==> r == Some(InvalidCredentials) && user == old(user) && saved == old(saved)
      ensures var found := FindAccount(accounts, email, password);
              found.Some? ==> r.None? && user == Some(found.value.profile) && saved == user
      ensures r.None? ==> user.Some? && user.value.email == email
      ensures !isLoading
      ensures old(Synced()) ==> Synced()
    {
      isLoading := true;
      var found := FindAccount(accounts, email, password);
      if found.None? {
        isLoading := false;
        return Some(InvalidCredentials);
      }
      user := Some(found.value.profile);
      saved := user;
      isLoading := false;
      r := None;
    }

    /** `logout`: clears the session and its stored copy. */
    method Logout()
      modifies this
      ensures user.None? && saved.None? && isLoading == old(isLoading)
      ensures Synced() && !IsAuthenticated()
    {
      user := None;
      saved := None;
    }

    /**
     * `register`: an email already used by an account fails; otherwise a
     * member with the starting balance and the default wallet becomes the
     * session. The password is not kept and no account is added.
     */
    method Register(username: string, email: string, password: string, freshId: string, now: int)
      returns (r: Option<AuthError>)
      modifies this
      ensures EmailTaken(accounts, email) ==> r == Some(UserExists) && user == old(user) && saved == old(saved)
      ensures !EmailTaken(accounts, email) ==>
                r.None? && user == Some(User(freshId, username, email, Member, SIGNUP_BALANCE, DEFAULT_WALLET, None, now))
                && saved == user
      ensures !isLoading
      ensures r.None? ==> ValidWallet(user.value.walletAddress) && user.value.role == Member
      ensures old(Synced()) ==> Synced()
    {
      isLoading := true;
      if EmailTaken(accounts, email) {
        isLoading := false;
        return Some(UserExists);
      }
      user := Some(User(freshId, username, email, Member, SIGNUP_BALANCE, DEFAULT_WALLET, None, now));
      saved := user;
      isLoading := false;
      DefaultWalletValid();
      r := None;
    }

    /**
     * `updateWalletAddress`: needs a session and an address of the wallet
     * format; then only the session's wallet address changes.
     */
    method UpdateWalletAddress(address: string) returns (r: Option<AuthError>)
      modifies this
      ensures old(user).None? ==> r == Some(NoUserLoggedIn) && user == old(user) && saved == old(saved)
      ensures old(user).Some? && !ValidWallet(address) ==>
                r == Some(InvalidWalletFormat) && user == old(user) && saved == old(saved)
      ensures old(user).Some? && ValidWallet(address) ==>
                r.None? && user == Some(old(user).value.(walletAddress := address)) && saved == user
      ensures isLoading == old(isLoading)
      ensures old(Synced()) ==> Synced()
    {
      if user.None? {
        return Some(NoUserLoggedIn);
      }
      if !ValidWallet(address) {
        return Some(InvalidWalletFormat);
      }
      user := Some(user.value.(walletAddress := address));
      saved := user;
      r := None;
    }
  }
}
