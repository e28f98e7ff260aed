/**
 * The login-attempt bookkeeping of a user account (models.py, User). Failed
 * logins are counted; once the count reaches the configured limit the account
 * must have its password reset, which restores the default password and
 * clears the count.
 */
module Accounts {
  import opened Wrappers
  import opened Participants
  import opened Config

  /** The password `reset_to_default_password` installs. */
  const DefaultPassword: string := "password123"

  /** The settings key holding the failed-login limit, and the limit used when it is absent. */
  const MaxAttemptsKey: string := "security.max_login_attempts"
  const DefaultMaxAttempts: int := 5

  function Pow10(k: nat): (r: nat)
    ensures r >= 1
  {
    if k == 0 then 1 else 10 * Pow10(k - 1)
  }

  /**
   * `attempts >= limit` as Python evaluates it for each kind of value the
   * settings table can return: a bool counts as 0 or 1, a float compares by
   * value, and a string makes the comparison raise (`None` here).
   */
  function Reached(attempts: int, limit: ConfigValue): (r: Option<bool>)
    ensures r.None? <==> limit.StrVal?
    ensures limit.FloatVal? ==> r == Some(attempts * Pow10(limit.scale) >= limit.mantissa)
  {
    match limit
    case BoolVal(b) => Some(attempts >= if b then 1 else 0)
    case IntVal(i) => Some(attempts >= i)
    case FloatVal(m, k) => Some(attempts * Pow10(k) >= m)
    case StrVal(_) => None
  }

  /** Once the limit is reached, further failures keep it reached. */
  lemma ReachedMonotone(a1: int, a2: int, limit: ConfigValue)
    requires a1 <= a2 && Reached(a1, limit) == Some(true)
    ensures Reached(a2, limit) == Some(true)
  {
    if limit.FloatVal? {
      var p := Pow10(limit.scale);
      assert a1 * p <= a2 * p;
    }
  }

  /** A limit stored as `str(n)` for a non-negative `n` is the integer threshold `n`. */
  lemma StoredLimit(attempts: int, n: nat)
    ensures Reached(attempts, Coerce(Str(n))) == Some(attempts >= n)
  {
    NatRoundTrip(n);
  }

  /** A limit stored as a negative number reads back as text, so the comparison raises. */
  lemma NegativeLimitRaises(attempts: int, n: int)
    requires n < 0
    ensures Reached(attempts, Coerce(Str(n))).None?
  {
    NegativeStaysText(n);
  }

  /** A user's login-security fields. `lockedUntil` is a timestamp, or `None` when not locked. */
  class Account {
    var loginAttempts: int
    var lockedUntil: Option<int>
    var isDefaultPassword: bool
    var password: string

    /** A new account: column defaults, with the password it was created with. */
    constructor (password: string)
      ensures loginAttempts == 0 && lockedUntil == None && isDefaultPassword
      ensures this.password == password
    {
      loginAttempts := 0;
      lockedUntil := None;
      isDefaultPassword := true;
      this.password := password;
    }

    /** `needs_password_reset`: the failed-login count has reached the configured limit. */
    function NeedsPasswordReset(store: ConfigStore): (r: Option<bool>)
      reads this, store
      ensures MaxAttemptsKey !in store.rows ==> r == Some(loginAttempts >= DefaultMaxAttempts)
      ensures r.None? <==> MaxAttemptsKey in store.rows && Coerce(store.rows[MaxAttemptsKey].value).StrVal?
    {
      var limit := store.GetConfig(MaxAttemptsKey, Some(IntVal(DefaultMaxAttempts)));
      Reached(loginAttempts, limit.value)
    }

    /** `increment_login_attempts`: one more failure, nothing else changes. */
    method IncrementLoginAttempts()
      modifies this
      ensures loginAttempts == old(loginAttempts) + 1
      ensures lockedUntil == old(lockedUntil) && isDefaultPassword == old(isDefaultPassword)
      ensures password == old(password)
    {
      loginAttempts := loginAttempts + 1;
    }

    /** `reset_login_attempts`: the count goes back to zero, nothing else changes. */
    method ResetLoginAttempts()
      modifies this
      ensures loginAttempts == 0
      ensures lockedUntil == old(lockedUntil) && isDefaultPassword == old(isDefaultPassword)
      ensures password == old(password)
    {
      loginAttempts := 0;
    }

    /**
     * `reset_to_default_password`: default password, no failures, flagged as
     * using the default password, and no lock.
     */
    method ResetToDefaultPassword()
      modifies this
      ensures password == DefaultPassword && loginAttempts == 0
      ensures isDefaultPassword && lockedUntil == None
    {
      password := DefaultPassword;
      loginAttempts := 0;
      isDefaultPassword := true;
      lockedUntil := None;
    }
  }
}
