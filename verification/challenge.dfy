/** The second-factor classifier shared by every login path: the rejection reason is searched
    for the email phrase first and for the generic phrase second. */
module Challenge {
  import opened Wrappers

  /** The two verification endpoints: an emailed code or an authenticator (TOTP) code. */
  datatype Kind = EmailCode | TotpCode

  const GenericPhrase := "2 Factor Authentication"
  const EmailPhrase := "Email " + GenericPhrase

  predicate IsPrefix(p: string, s: string) {
    |p| <= |s| && s[..|p|] == p
  }

  /** Python's `sub in s`. */
  predicate Contains(s: string, sub: string)
    decreases |s|
  {
    IsPrefix(sub, s) || (|s| > 0 && Contains(s[1..], sub))
  }

  /** `sub` occurs in `s` starting at offset `i`. */
  predicate OccursAt(s: string, sub: string, i: int) {
    0 <= i <= |s| - |sub| && s[i..i + |sub|] == sub
  }

  /** `Contains` agrees with the textbook definition: `sub` occurs at some offset of `s`. */
  lemma {:induction false} ContainsAt(s: string, sub: string)
    ensures Contains(s, sub) <==> exists i :: OccursAt(s, sub, i)
    decreases |s|
  {
    if IsPrefix(sub, s) {
      assert OccursAt(s, sub, 0);
    } else if |s| > 0 {
      ContainsAt(s[1..], sub);
      if Contains(s[1..], sub) {
        var i :| OccursAt(s[1..], sub, i);
        assert s[i + 1..i + 1 + |sub|] == s[1..][i..i + |sub|];
        assert OccursAt(s, sub, i + 1);
      }
      if exists i :: OccursAt(s, sub, i) {
        var i :| OccursAt(s, sub, i);
        if i > 0 {
          assert s[1..][i - 1..i - 1 + |sub|] == s[i..i + |sub|];
          assert OccursAt(s[1..], sub, i - 1);
        }
      }
    }
  }

  /** A text that contains `p + q` contains `q`. */
  lemma ContainsSuffix(s: string, p: string, q: string)
    requires Contains(s, p + q)
    ensures Contains(s, q)
  {
    ContainsAt(s, p + q);
    var i :| OccursAt(s, p + q, i);
    assert s[i + |p|..i + |p| + |q|] == s[i..i + |p + q|][|p|..];
    assert (p + q)[|p|..] == q;
    assert OccursAt(s, q, i + |p|);
    ContainsAt(s, q);
  }

  /** Every reason naming the email challenge also names the generic one, so the order of the
      two tests decides: the email test must come first for the email branch to be reachable. */
  lemma EmailReasonIsGeneric(reason: string)
    requires Contains(reason, EmailPhrase)
    ensures Contains(reason, GenericPhrase)
  {
    ContainsSuffix(reason, "Email ", GenericPhrase);
  }

  /** `__two_factor_auth`'s decision: which verify call, if any, the reason asks for. */
  function Classify(reason: string): (k: Option<Kind>)
    ensures k == Some(EmailCode) <==> Contains(reason, EmailPhrase)
    ensures k == Some(TotpCode) <==> Contains(reason, GenericPhrase) && !Contains(reason, EmailPhrase)
    ensures k.None? <==> !Contains(reason, GenericPhrase)
  {
    if Contains(reason, EmailPhrase) then
      EmailReasonIsGeneric(reason);
      Some(EmailCode)
    else if Contains(reason, GenericPhrase) then Some(TotpCode)
    else None
  }

  /** The reason the server gives for an email challenge selects the email endpoint. */
  lemma ClassifyEmailReason(prefix: string, suffix: string)
    ensures Classify(prefix + EmailPhrase + suffix) == Some(EmailCode)
  {
    var s := prefix + EmailPhrase + suffix;
    assert s[|prefix|..|prefix| + |EmailPhrase|] == EmailPhrase;
    assert OccursAt(s, EmailPhrase, |prefix|);
    ContainsAt(s, EmailPhrase);
  }
}
