/** The admin login form's schema (`loginSchema.js`): both fields are trimmed, then
    bounded; the password must also consist of letters, digits and `!@#._-` only. */
module LoginSchema {
  import opened Strings

  const EmailTooLong := "Email cannot exceed 32 characters"
  const EmailEmpty := "Email field cannot be empty"
  const EmailFormat := "Must be a valid email address"
  const PasswordTooLong := "Password cannot exceed 32 characters"
  const PasswordEmpty := "Password field cannot be empty"
  const PasswordTooShort := "Password must be at least 6 characters long"
  const PasswordCharacters := "Password can only contain letters, numbers, and safe symbols (!@#._-)"

  /** A character of the class `[a-zA-Z0-9!@#._-]`. */
  predicate AllowedChar(c: char) {
    ('a' <= c <= 'z') || ('A' <= c <= 'Z') || ('0' <= c <= '9') || c in {'!', '@', '#', '.', '_', '-'}
  }

  /** `/^[a-zA-Z0-9!@#._-]+$/.test(s)`. */
  predicate AllowedCharsOnly(s: string) {
    |s| >= 1 && forall i :: 0 <= i < |s| ==> AllowedChar(s[i])
  }

  /** The issues of `email`, in the order of its checks; whether the trimmed value is
      an email address is zod's own test and comes in as `formatOk`. */
  function EmailIssues(raw: string, formatOk: bool): seq<string> {
    var t := Trim(raw);
    (if Utf16Len(t) > 32 then [EmailTooLong] else [])
    + (if Utf16Len(t) < 1 then [EmailEmpty] else [])
    + (if formatOk then [] else [EmailFormat])
  }

  /** The issues of `password`: the length checks in order, then the character test
      on the trimmed value. */
  function PasswordIssues(raw: string): seq<string> {
    var t := Trim(raw);
    (if Utf16Len(t) > 32 then [PasswordTooLong] else [])
    + (if Utf16Len(t) < 1 then [PasswordEmpty] else [])
    + (if Utf16Len(t) < 6 then [PasswordTooShort] else [])
    + (if AllowedCharsOnly(t) then [] else [PasswordCharacters])
  }

  /** The password rule: 6 to 32 characters after trimming, all of them allowed. */
  predicate PasswordAccepted(raw: string) {
    6 <= |Trim(raw)| <= 32 && forall i :: 0 <= i < |Trim(raw)| ==> AllowedChar(Trim(raw)[i])
  }

  /** Allowed characters are ASCII, so their UTF-16 length is their count. */
  lemma AllowedIsAscii(s: string)
    requires forall i :: 0 <= i < |s| ==> AllowedChar(s[i])
    ensures Utf16Len(s) == |s|
  {
    Utf16LenBmp(s);
  }

  /** The schema accepts a password exactly when the rule holds. */
  lemma PasswordAcceptedIff(raw: string)
    ensures PasswordIssues(raw) == [] <==> PasswordAccepted(raw)
  {
    var t := Trim(raw);
    if forall i :: 0 <= i < |t| ==> AllowedChar(t[i]) {
      AllowedIsAscii(t);
    }
  }

  /** `min(1)` never fires alone: whenever it does, `min(6)` does as well. */
  lemma MinOneSubsumed(raw: string)
    requires PasswordEmpty in PasswordIssues(raw)
    ensures PasswordTooShort in PasswordIssues(raw)
  {
  }

  /** An email that is empty or over 32 units long after trimming is refused. */
  lemma EmailBounds(raw: string, formatOk: bool)
    ensures EmailIssues(raw, formatOk) == [] <==> formatOk && 1 <= Utf16Len(Trim(raw)) <= 32
  {
  }

  /** White space around the password is never part of it: only the trimmed value is
      checked. */
  lemma PasswordTrimmedFirst(raw: string)
    ensures PasswordIssues(raw) == PasswordIssues(Trim(raw))
  {
    TrimIdempotent(raw);
  }
}
