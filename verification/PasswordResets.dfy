/** One-time password reset tokens (app/repositories/password_reset_token.py). */
module PasswordResets {
  import opened Common

  type Id = nat
  type Time = int

  /** A row; its position is its id and stands for its hash. */
  datatype ResetToken = ResetToken(user: Id, expiresAt: Time, usedAt: Option<Time>)

  type Resets = seq<ResetToken>

  /** UPDATE ... SET used_at = now WHERE user_id = u AND used_at IS NULL */
  function MarkUserUsed(s: Resets, user: Id, now: Time): Resets {
    seq(|s|, i requires 0 <= i < |s| => if s[i].user == user && s[i].usedAt.None? then s[i].(usedAt := Some(now))
      else s[i])
  }

  /** `forgot_password`: earlier tokens of the user are spent, a new one is added. */
  function Request(s: Resets, user: Id, now: Time, ttl: nat): Resets {
    MarkUserUsed(s, user, now) + [ResetToken(user, now + ttl, None)]
  }

  predicate Active(s: Resets, k: nat, now: Time) {
    k < |s| && s[k].usedAt.None? && s[k].expiresAt > now
  }

  /** `reset_password` with an active token spends it and every other token of the user. */
  function Spend(s: Resets, k: nat, now: Time): Resets
    requires k < |s|
  {
    MarkUserUsed(s[k := s[k].(usedAt := Some(now))], s[k].user, now)
  }

  /** A user has at most one unused token, the newest. */
  ghost predicate OneUnused(s: Resets) {
    forall i, j :: 0 <= i < j < |s| && s[i].user == s[j].user ==> s[i].usedAt.Some?
  }

  /** The rows of `s` are still there, and a used one is still used. */
  ghost predicate OnlySpends(s: Resets, s': Resets) {
    && |s| <= |s'|
    && forall i :: 0 <= i < |s| ==> s'[i].(usedAt := s[i].usedAt) == s[i] && (s[i].usedAt.Some? ==> s'[i].usedAt.Some?)
  }

  lemma RequestKeepsOneUnused(s: Resets, user: Id, now: Time, ttl: nat)
    requires OneUnused(s)
    ensures OneUnused(Request(s, user, now, ttl)) && OnlySpends(s, Request(s, user, now, ttl))
  {
  }

  lemma SpendKeepsOneUnused(s: Resets, k: nat, now: Time)
    requires OneUnused(s) && k < |s|
    ensures OneUnused(Spend(s, k, now)) && OnlySpends(s, Spend(s, k, now))
    ensures forall i :: 0 <= i < |s| && s[i].user == s[k].user ==> Spend(s, k, now)[i].usedAt.Some?
  {
  }
}
