/**
 * Contact-form validation: every required field must be non-empty and the
 * email must match `^[^\s@]+@[^\s@]+\.[^\s@]+$`; otherwise an error
 * notification is shown and the submission stops.
 */
module ContactForm {
  import opened Notifications

  /** The characters JavaScript's `\s` matches: white space and line
      terminators. */
  predicate IsSpace(c: char) {
    || c == '\t' || c == '\n' || c == '\U{B}' || c == '\U{C}' || c == '\r' || c == ' '
    || c == '\U{A0}' || c == '\U{1680}' || ('\U{2000}' <= c <= '\U{200A}')
    || c == '\U{2028}' || c == '\U{2029}' || c == '\U{202F}' || c == '\U{205F}'
    || c == '\U{3000}' || c == '\U{FEFF}'
  }

  /** A character of the class `[^\s@]`. */
  predicate InClass(c: char) {
    !IsSpace(c) && c != '@'
  }

  /** A match of `[^\s@]+`. */
  predicate IsRun(s: string) {
    |s| > 0 && forall k :: 0 <= k < |s| ==> InClass(s[k])
  }

  /** `s` is a run, an `@` at `i`, a run, a `.` at `j` and a run. */
  predicate SplitsAt(s: string, i: int, j: int) {
    && 0 < i && i + 1 < j && j + 1 < |s| && s[i] == '@' && s[j] == '.'
    && IsRun(s[..i]) && IsRun(s[i + 1..j]) && IsRun(s[j + 1..])
  }

  /** What the anchored pattern means: the string splits into a run, an
      `@`, a run, a `.` and a run. */
  ghost predicate MatchesEmailPattern(s: string) {
    exists i, j :: SplitsAt(s, i, j)
  }

  /** The first index of `c` in `s`, or |s| when there is none. */
  function IndexOf(s: string, c: char): (r: nat)
    ensures r <= |s|
    ensures r < |s| ==> s[r] == c
    ensures forall k :: 0 <= k < r ==> s[k] != c
  {
    if |s| == 0 then 0
    else if s[0] == c then 0
    else 1 + IndexOf(s[1..], c)
  }

  /** The check the form performs, stated without backtracking: no white
      space, exactly one `@` with something before it, and a `.` after the
      `@` that is neither the first nor the last character of the domain.
      An address it accepts has at least five characters and neither
      begins nor ends with `@`. */
  predicate IsValidEmail(s: string): (b: bool)
    ensures b ==> 5 <= |s| && s[0] != '@' && s[|s| - 1] != '@'
  {
    var at := IndexOf(s, '@');
    && (forall k :: 0 <= k < |s| ==> !IsSpace(s[k]))
    && 0 < at < |s|
    && (forall k :: at < k < |s| ==> s[k] != '@')
    && (exists p :: at + 1 < p < |s| - 1 && s[p] == '.')
  }

  /** A non-empty slice whose characters are all in the class is a run. */
  lemma SliceIsRun(s: string, lo: int, hi: int)
    requires 0 <= lo < hi <= |s|
    requires forall k :: lo <= k < hi ==> InClass(s[k])
    ensures IsRun(s[lo..hi])
  {
    forall k | 0 <= k < hi - lo
      ensures InClass(s[lo..hi][k])
    {
      assert s[lo..hi][k] == s[lo + k];
    }
  }

  /** Every character of a run that is a slice of `s` is in the class. */
  lemma RunIsInClass(s: string, lo: int, hi: int)
    requires 0 <= lo <= hi <= |s| && IsRun(s[lo..hi])
    ensures forall k :: lo <= k < hi ==> InClass(s[k])
  {
    forall k | lo <= k < hi
      ensures InClass(s[k])
    {
      assert s[lo..hi][k - lo] == s[k];
    }
  }

  /** Every string the check accepts matches the pattern. */
  lemma EmailCheckSound(s: string)
    requires IsValidEmail(s)
    ensures MatchesEmailPattern(s)
  {
    var at := IndexOf(s, '@');
    var p :| at + 1 < p < |s| - 1 && s[p] == '.';
    SliceIsRun(s, 0, at);
    SliceIsRun(s, at + 1, p);
    SliceIsRun(s, p + 1, |s|);
    assert s[..at] == s[0..at] && s[p + 1..] == s[p + 1..|s|];
    assert SplitsAt(s, at, p);
  }

  /** Every string the pattern matches passes the check. */
  lemma EmailCheckComplete(s: string)
    requires MatchesEmailPattern(s)
    ensures IsValidEmail(s)
  {
    var i, j :| SplitsAt(s, i, j);
    assert s[..i] == s[0..i] && s[j + 1..] == s[j + 1..|s|];
    RunIsInClass(s, 0, i);
    RunIsInClass(s, i + 1, j);
    RunIsInClass(s, j + 1, |s|);
    var at := IndexOf(s, '@');
    assert at == i;
    assert forall k :: 0 <= k < |s| ==> !IsSpace(s[k]);
    assert forall k :: at < k < |s| ==> s[k] != '@';
    assert at + 1 < j < |s| - 1 && s[j] == '.';
  }

  /** The check accepts exactly the strings the pattern matches. */
  lemma EmailCheckMatchesPattern(s: string)
    ensures IsValidEmail(s) <==> MatchesEmailPattern(s)
  {
    if IsValidEmail(s) {
      EmailCheckSound(s);
    }
    if MatchesEmailPattern(s) {
      EmailCheckComplete(s);
    }
  }

  /** A dot right after the `@` is rejected. */
  lemma DotAfterAtRejected()
    ensures !IsValidEmail("a@.com")
  {
    assert IndexOf("a@.com", '@') == 1;
  }

  /** A second dot in the domain is accepted. */
  lemma SecondDotAccepted()
    ensures IsValidEmail("a@b.c.d")
  {
    assert IndexOf("a@b.c.d", '@') == 1;
    assert "a@b.c.d"[3] == '.';
  }

  /** White space anywhere, or a second `@`, is rejected. */
  lemma SpaceOrSecondAtRejected()
    ensures !IsValidEmail("a b@c.d")
    ensures !IsValidEmail("a@b@c.d")
  {
    assert "a b@c.d"[1] == ' ';
    assert IndexOf("a@b@c.d", '@') == 1;
    assert "a@b@c.d"[3] == '@';
  }

  const MissingFieldsMessage := "Please fill in all required fields."
  const InvalidEmailMessage := "Please enter a valid email address."

  /** The outcome of the submit handler's checks. */
  datatype Verdict = Accepted | Rejected(message: string)

  /** A form field is present and not empty (JavaScript's truthiness of a
      `FormData` entry). */
  predicate Filled(data: map<string, string>, name: string) {
    name in data && data[name] != ""
  }

  predicate AllFilled(data: map<string, string>) {
    Filled(data, "name") && Filled(data, "email") && Filled(data, "subject") && Filled(data, "message")
  }

  /** The submit handler's checks, in order: required fields, then email. */
  function Validate(data: map<string, string>): (v: Verdict)
    ensures v == Accepted <==> AllFilled(data) && MatchesEmailPattern(data["email"])
    ensures v == Rejected(MissingFieldsMessage) <==> !AllFilled(data)
    ensures v == Rejected(InvalidEmailMessage) <==> AllFilled(data) && !MatchesEmailPattern(data["email"])
  {
    if !AllFilled(data) then Rejected(MissingFieldsMessage)
    else
      EmailCheckMatchesPattern(data["email"]);
      if !IsValidEmail(data["email"]) then Rejected(InvalidEmailMessage)
      else Accepted
  }

  /** The submit handler up to the simulated send: a rejected form raises an
      error notification, an accepted one leaves the notifications alone. */
  method OnSubmit(data: map<string, string>, layer: NotificationLayer) returns (v: Verdict)
    requires layer.Valid()
    modifies layer
    ensures layer.Valid()
    ensures v == Validate(data)
    ensures v.Rejected? ==> layer.notices == [Notice(old(layer.nextId), v.message, "error", false)]
    ensures v.Accepted? ==> layer.notices == old(layer.notices) && layer.nextId == old(layer.nextId)
  {
    v := Validate(data);
    if v.Rejected? {
      var _ := layer.Show(v.message, "error");
    }
  }
}
