/**
 * Role sanitising of the upload pipeline (backend/services/role_cleaner.py): a raw role cell
 * becomes a short single-spaced title, or "Unknown" when it looks like a web address, markup
 * or a paragraph of prose.
 */
module RoleCleaner {
  import opened Base
  import opened Strings

  const Unknown: string := "Unknown"
  const MaxRoleLength: int := 60
  const MaxRoleWords: int := 10

  /** Why a stripped role is discarded: empty, a web address, an asterisk, too long, too many words. */
  predicate Rejected(s: string) {
    || s == ""
    || Contains(Lower(s), "www.")
    || '*' in s
    || |s| > MaxRoleLength
    || WordCount(s) > MaxRoleWords
  }

  /**
   * `clean_role`: "Unknown" for a missing or rejected role; otherwise the words of the role
   * joined by single spaces: trimmed, with every whitespace run made one space.
   */
  function CleanRole(value: Option<string>): (r: string)
    ensures r != "" && |r| <= MaxRoleLength
    ensures value.None? || Rejected(Strip(value.value)) ==> r == Unknown
    ensures value.Some? && !Rejected(Strip(value.value)) ==>
              && r == Join(Words(value.value), " ")
              && IsSqueezed(r)
              && Without(r, Whitespace) == Without(value.value, Whitespace)
              && WordCount(r) == WordCount(value.value)
  {
    match value
    case None => Unknown
    case Some(v) =>
      var s := Strip(v);
      if Rejected(s) then Unknown
      else
        CleanedRoleFacts(v);
        WordsOfStrip(v);
        SqueezeIsJoinedWords(s);
        Squeeze(s)
  }

  /** What squeezing an accepted role keeps. */
  lemma CleanedRoleFacts(v: string)
    requires !Rejected(Strip(v))
    ensures Squeeze(Strip(v)) != "" && |Squeeze(Strip(v))| <= MaxRoleLength
    ensures Without(Squeeze(Strip(v)), Whitespace) == Without(v, Whitespace)
    ensures WordCount(Squeeze(Strip(v))) == WordCount(v)
  {
    var s := Strip(v);
    SqueezeKeepsContent(s);
    StripKeepsContent(v, Whitespace);
    WithoutMembership(s, Whitespace, s[0]);
    SqueezeWordCount(s);
    StripWordCount(v);
  }

  /** A role that survived cleaning is accepted again. */
  lemma CleanedRoleAccepted(s: string)
    requires s == Strip(s) && !Rejected(s)
    ensures Strip(Squeeze(s)) == Squeeze(s)
    ensures !Rejected(Squeeze(s))
  {
    SqueezedStripped(s);
    SqueezedNotEmpty(s);
    SqueezeNoWebAddress(s);
    SqueezedNoStar(s);
    SqueezeWordCount(s);
  }

  lemma SqueezedStripped(s: string)
    ensures Strip(Squeeze(s)) == Squeeze(s)
  {
    StripCharsIdentity(Squeeze(s), Whitespace);
  }

  /** A stripped, non-empty text keeps a character when squeezed. */
  lemma SqueezedNotEmpty(s: string)
    requires s != "" && s == Strip(s)
    ensures Squeeze(s) != ""
  {
    WithoutMembership(s, Whitespace, s[0]);
    SqueezeKeepsContent(s);
  }

  lemma SqueezedNoStar(s: string)
    requires '*' !in s
    ensures '*' !in Squeeze(s)
  {
    if '*' in Squeeze(s) {
      SqueezeNoNewChars(s, '*');
    }
  }

  /** Squeezing cannot create a web address. */
  lemma SqueezeNoWebAddress(s: string)
    requires !Contains(Lower(s), "www.")
    ensures !Contains(Lower(Squeeze(s)), "www.")
  {
    var w := "www.";
    assert w == ['w', 'w', 'w', '.'];
    assert forall i :: 0 <= i < |w| ==> !IsSpace(w[i]);
    LowerSqueeze(s);
    if Contains(Squeeze(Lower(s)), w) {
      SqueezeContains(Lower(s), w);
    }
  }

  /** `clean_role(clean_role(x)) == clean_role(x)`. */
  lemma CleanRoleIdempotent(value: Option<string>)
    ensures CleanRole(Some(CleanRole(value))) == CleanRole(value)
  {
    if value.None? || Rejected(Strip(value.value)) {
      UnknownIsClean();
    } else {
      AcceptedRoleIsClean(value.value);
    }
  }

  /** "Unknown" is accepted and already squeezed. */
  lemma UnknownIsClean()
    ensures CleanRole(Some(Unknown)) == Unknown
  {
    assert IsSqueezed(Unknown);
    StripCharsIdentity(Unknown, Whitespace);
    SqueezeIdentity(Unknown);
  }

  lemma AcceptedRoleIsClean(v: string)
    requires !Rejected(Strip(v))
    ensures CleanRole(Some(Squeeze(Strip(v)))) == Squeeze(Strip(v))
  {
    var s := Strip(v);
    StripIdempotent(v);
    CleanedRoleAccepted(s);
    SqueezeIdempotent(s);
  }
}
