/**
 * The root component of the web client: its pure helpers (version tags, e-mail
 * addresses, the resend timer) and the state behind the update prompt, the
 * one-time bot resume and the e-mail code resend countdown.
 */
module App {
  import opened Wrappers
  import opened Text
  import Js

  const FALLBACK_VERSION := "0000000"
  const VERSION_LENGTH := 7
  const MIN_GAP_MS := 1500
  const EMAIL_OTP_RESEND_SECONDS := 120

  /** `String(v || "")` */
  function TextOf(v: Js.Value): (r: string)
    ensures !Js.Truthy(v) ==> r == ""
    ensures v.Str? ==> r == v.s
  {
    if Js.Truthy(v) then Js.ToStr(v) else ""
  }

  // ------------------------------------------------------------ version tags

  /**
   * `normalizeVersion7` on the text of its argument: the first seven characters
   * of the trimmed text, or the placeholder version when the text is blank. The
   * result is never empty.
   */
  function Version7(text: string): (r: string)
    ensures 0 < |r| <= VERSION_LENGTH
  {
    var s := Trim(text);
    var t := if s != "" then s else FALLBACK_VERSION;
    if |t| <= VERSION_LENGTH then t else t[..VERSION_LENGTH]
  }

  /**
   * What `normalizeVersion7` makes of a text: the placeholder when the text is
   * blank, and otherwise the first seven characters of the trimmed text (all of
   * it when it is shorter).
   */
  lemma Version7Prefix(text: string)
    ensures IsBlank(text) ==> Version7(text) == FALLBACK_VERSION
    ensures !IsBlank(text) ==>
      var t, r := Trim(text), Version7(text);
      |r| == (if |t| < VERSION_LENGTH then |t| else VERSION_LENGTH) && r == t[..|r|]
  {
  }

  /** `normalizeVersion7` */
  function NormalizeVersion7(v: Js.Value): (r: string)
    ensures 0 < |r| <= VERSION_LENGTH
  {
    Version7(TextOf(v))
  }

  /** A full commit hash and its seven-character short form name the same version. */
  lemma ShortHashSameVersion(sha: string)
    requires |sha| >= VERSION_LENGTH && NoSpace(sha)
    ensures Version7(sha) == Version7(sha[..VERSION_LENGTH]) == sha[..VERSION_LENGTH]
  {
    TrimOfTrimmed(sha);
    TrimOfTrimmed(sha[..VERSION_LENGTH]);
  }

  /**
   * A tag without whitespace is stored in its normal form: normalising it again
   * (as reading back a dismissed version does) changes nothing.
   */
  lemma Version7Stable(t: string)
    requires NoSpace(t)
    ensures Version7(Version7(t)) == Version7(t)
  {
    var r := Version7(t);
    Version7Prefix(t);
    if t == "" {
      assert r == FALLBACK_VERSION;
    } else {
      assert !IsSpace(t[0]) && !IsSpace(t[|t| - 1]);
      TrimOfTrimmed(t);
      assert !IsBlank(t);
      assert r == t[..|r|];
    }
    assert NoSpace(r);
    assert !IsSpace(r[0]) && !IsSpace(r[|r| - 1]);
    TrimOfTrimmed(r);
    Version7Prefix(r);
    assert !IsBlank(r);
  }

  /** `APP_VERSION`: the build's commit hash (`""` when the build defines none), or the placeholder. */
  function AppVersion(gitSha: string): (r: string)
    ensures r != ""
    ensures gitSha != "" ==> r == gitSha
  {
    if gitSha != "" then gitSha else FALLBACK_VERSION
  }

  /** `normalizeVersion7(serverVersion)`, where the state holds null until a check answers. */
  function ShownVersion(o: Option<string>): (r: string)
    ensures 0 < |r| <= VERSION_LENGTH
    ensures o.Some? ==> r == Version7(o.value)
    ensures o.None? ==> r == FALLBACK_VERSION
  {
    Version7(if o.Some? then o.value else "")
  }

  // ------------------------------------------------------------ e-mail addresses

  /** `normalizeEmail` on the text of its argument: trimmed and lower-cased. */
  function EmailNormal(text: string): (r: string)
    ensures |r| <= |text|
    ensures r == [] <==> IsBlank(text)
    ensures |r| == |Trim(text)| && forall i :: 0 <= i < |r| ==> r[i] == LowerChar(Trim(text)[i])
  {
    ToLower(Trim(text))
  }

  /** `normalizeEmail` */
  function NormalizeEmail(e: Js.Value): (r: string)
    ensures var t := Trim(TextOf(e)); |r| == |t| && forall i :: 0 <= i < |r| ==> r[i] == LowerChar(t[i])
    ensures !Js.Truthy(e) ==> r == ""
    ensures e.Str? ==> (r == [] <==> IsBlank(e.s))
  {
    EmailNormal(TextOf(e))
  }

  /** Normalising an address twice gives what normalising it once gives. */
  lemma EmailNormalIdempotent(text: string)
    ensures EmailNormal(EmailNormal(text)) == EmailNormal(text)
  {
    var s := Trim(text);
    TrimToLower(s);
    TrimIdempotent(text);
    ToLowerIdempotent(s);
  }

  /** A non-empty stretch of characters that are neither whitespace nor `@` (`[^\s@]+`). */
  predicate Plain(t: string) {
    |t| > 0 && forall k :: 0 <= k < |t| ==> !IsSpace(t[k]) && t[k] != '@'
  }

  /** `/^[^\s@]+@[^\s@]+\.[^\s@]+$/`, by the positions of the `@` and of the dot the match uses. */
  predicate EmailShape(s: string) {
    exists i, j :: 0 < i && i + 1 < j && j + 1 < |s| && s[i] == '@' && s[j] == '.' &&
      forall k :: 0 <= k < |s| && k != i ==> !IsSpace(s[k]) && s[k] != '@'
  }

  /** `isValidEmailFormat` on the text of its argument. */
  predicate EmailValid(text: string)
    ensures EmailValid(text) ==> !IsBlank(text) && Trim(text) != ""
  {
    var s := Trim(text);
    s != "" && EmailShape(s)
  }

  /** `isValidEmailFormat` */
  predicate IsValidEmailFormat(email: Js.Value)
    ensures !Js.Truthy(email) ==> !IsValidEmailFormat(email)
    ensures email.Str? && IsBlank(email.s) ==> !IsValidEmailFormat(email)
  {
    EmailValid(TextOf(email))
  }

  /**
   * The pattern, read piece by piece: a valid address is a plain local part, `@`,
   * a plain name, a dot and a plain last label, and nothing else.
   */
  lemma EmailPieces(s: string)
    ensures EmailShape(s) <==> exists a, b, c :: Plain(a) && Plain(b) && Plain(c) && s == a + "@" + b + "." + c
  {
    if EmailShape(s) {
      var i, j :| 0 < i && i + 1 < j && j + 1 < |s| && s[i] == '@' && s[j] == '.' &&
        forall k :: 0 <= k < |s| && k != i ==> !IsSpace(s[k]) && s[k] != '@';
      var a, b, c := s[..i], s[i + 1..j], s[j + 1..];
      assert s == a + "@" + b + "." + c;
      assert Plain(a) && Plain(b) && Plain(c);
    }
    if exists a, b, c :: Plain(a) && Plain(b) && Plain(c) && s == a + "@" + b + "." + c {
      var a, b, c :| Plain(a) && Plain(b) && Plain(c) && s == a + "@" + b + "." + c;
      var i, j := |a|, |a| + 1 + |b|;
      forall k | 0 <= k < |s| && k != i
        ensures !IsSpace(s[k]) && s[k] != '@'
      {
        if k < i {
          assert s[k] == a[k];
        } else if k < j {
          assert s[k] == b[k - i - 1];
        } else if k > j {
          assert s[k] == c[k - j - 1];
        }
      }
      assert s[i] == '@' && s[j] == '.';
    }
  }

  /** A valid address holds exactly one `@` and no whitespace at all. */
  lemma ValidEmailOneAt(text: string)
    requires EmailValid(text)
    ensures var s := Trim(text);
      NoSpace(s) && |s| >= 5 && exists i :: 0 <= i < |s| && s[i] == '@' && forall k :: 0 <= k < |s| && s[k] == '@' ==> k == i
  {
    var s := Trim(text);
    var i, j :| 0 < i && i + 1 < j && j + 1 < |s| && s[i] == '@' && s[j] == '.' &&
      forall k :: 0 <= k < |s| && k != i ==> !IsSpace(s[k]) && s[k] != '@';
    forall k | 0 <= k < |s| ensures !IsSpace(s[k]) && (s[k] == '@' ==> k == i) {
      if k == i {
        assert s[k] == '@';
      }
    }
  }

  /** Lower-casing keeps whitespace, `@` and dots where they are. */
  lemma LowerCharMarks(c: char)
    ensures IsSpace(LowerChar(c)) <==> IsSpace(c)
    ensures LowerChar(c) == '@' <==> c == '@'
    ensures LowerChar(c) == '.' <==> c == '.'
  {
  }

  /** The positions of whitespace, `@` and dots decide the pattern, so lower-casing keeps the verdict. */
  lemma EmailShapeToLower(s: string)
    ensures EmailShape(ToLower(s)) <==> EmailShape(s)
  {
    var r := ToLower(s);
    forall k | 0 <= k < |s|
      ensures (IsSpace(r[k]) <==> IsSpace(s[k])) && (r[k] == '@' <==> s[k] == '@') && (r[k] == '.' <==> s[k] == '.')
    {
      LowerCharMarks(s[k]);
    }
    if EmailShape(s) {
      var i, j :| 0 < i && i + 1 < j && j + 1 < |s| && s[i] == '@' && s[j] == '.' &&
        forall k :: 0 <= k < |s| && k != i ==> !IsSpace(s[k]) && s[k] != '@';
      assert r[i] == '@' && r[j] == '.';
    }
    if EmailShape(r) {
      var i, j :| 0 < i && i + 1 < j && j + 1 < |r| && r[i] == '@' && r[j] == '.' &&
        forall k :: 0 <= k < |r| && k != i ==> !IsSpace(r[k]) && r[k] != '@';
      assert s[i] == '@' && s[j] == '.';
    }
  }

  /** Normalising an address neither makes a valid one invalid nor an invalid one valid. */
  lemma NormalizedEmailValidity(text: string)
    ensures EmailValid(EmailNormal(text)) <==> EmailValid(text)
  {
    var s := Trim(text);
    var r := ToLower(s);
    assert Trim(r) == r by {
      TrimToLower(s);
      TrimIdempotent(text);
    }
    assert r == [] <==> s == [];
    EmailShapeToLower(s);
  }

  // ------------------------------------------------------------ resend timer

  /** `Math.max(0, Number(totalSeconds) || 0)` */
  function TimerSeconds(totalSeconds: Js.Value): (s: nat)
    ensures Js.ToNumber(totalSeconds).Some? && Js.ToNumber(totalSeconds).value >= 0 ==>
      s == Js.ToNumber(totalSeconds).value
    ensures Js.ToNumber(totalSeconds).None? || Js.ToNumber(totalSeconds).value <= 0 ==> s == 0
  {
    match Js.ToNumber(totalSeconds)
    case Some(n) => if n > 0 then n else 0
    case None => 0
  }

  /** `padStart(2, "0")` */
  function Pad2(t: string): (r: string)
    ensures |t| >= 2 ==> r == t
    ensures |t| < 2 ==> |r| == 2 && r[2 - |t|..] == t && forall k :: 0 <= k < 2 - |t| ==> r[k] == '0'
  {
    if |t| == 0 then "00" else if |t| == 1 then "0" + t else t
  }

  /** `formatTimer` once the count is a whole number of seconds. */
  function Clock(s: nat): string {
    Pad2(NatToString(s / 60)) + ":" + Pad2(NatToString(s % 60))
  }

  /**
   * `r` reads `mm:ss` for `s` seconds: the whole minutes, zero-padded to two digits
   * and without a further leading zero, a colon, and two digits of seconds.
   */
  predicate ReadsAsClock(r: string, s: nat) {
    |r| >= 5 && r[|r| - 3] == ':' && AllDigits(r[..|r| - 3]) && AllDigits(r[|r| - 2..]) &&
    ParseDigits(r[..|r| - 3]) == s / 60 && ParseDigits(r[|r| - 2..]) == s % 60 &&
    (|r| > 5 ==> r[0] != '0')
  }

  /** `formatTimer` */
  function FormatTimer(totalSeconds: Js.Value): (r: string)
    ensures ReadsAsClock(r, TimerSeconds(totalSeconds))
    ensures Js.ToNumber(totalSeconds).None? || Js.ToNumber(totalSeconds).value <= 0 ==> r == "00:00"
  {
    var s := TimerSeconds(totalSeconds);
    ClockReads(s);
    Clock(s)
  }

  /** A leading zero does not change the value of a numeral. */
  lemma {:induction false} ParseDigitsLeadingZero(x: string)
    requires AllDigits(x)
    ensures AllDigits("0" + x) && ParseDigits("0" + x) == ParseDigits(x)
  {
    if x != [] {
      assert ("0" + x)[..|x|] == "0" + x[..|x| - 1];
      ParseDigitsLeadingZero(x[..|x| - 1]);
    }
  }

  /** Padding a numeral to two places keeps its value. */
  lemma PaddedValue(n: nat)
    ensures AllDigits(Pad2(NatToString(n))) && ParseDigits(Pad2(NatToString(n))) == n
    ensures n < 100 ==> |Pad2(NatToString(n))| == 2
  {
    ParseNatToString(n);
    var t := NatToString(n);
    if |t| < 2 {
      ParseDigitsLeadingZero(t);
      assert Pad2(t) == "0" + t;
    }
  }

  /**
   * The timer reads as whole minutes (at least two digits), a colon and two digits
   * of seconds below 60; a negative or non-numeric count reads "00:00".
   */
  lemma ClockReads(s: nat)
    ensures ReadsAsClock(Clock(s), s) && s % 60 < 60
    ensures s == 0 ==> Clock(s) == "00:00"
  {
    var m := NatToString(s / 60);
    var mm, ss := Pad2(m), Pad2(NatToString(s % 60));
    PaddedValue(s / 60);
    PaddedValue(s % 60);
    var r := Clock(s);
    assert r == mm + ":" + ss;
    assert r[..|r| - 3] == mm && r[|r| - 2..] == ss;
    if |r| > 5 {
      assert |m| > 2 && mm == m;
      assert r[0] == m[0];
    }
  }

  // ------------------------------------------------------------ resend countdown

  /** The countdown's updater `(s) => (s > 0 ? s - 1 : 0)`. */
  function StepDown(s: int): (r: int)
    ensures r >= 0 && r <= if s > 0 then s else 0
  {
    if s > 0 then s - 1 else 0
  }

  /** The seconds left after `k` ticks of an open dialog. */
  function Countdown(s: int, k: nat): int {
    if k == 0 then s
    else if s > 0 then Countdown(StepDown(s), k - 1)
    else s
  }

  /** Each tick takes one second off and the count stops at 0. */
  lemma {:induction false} CountdownValue(s: nat, k: nat)
    ensures Countdown(s, k) == if k < s then s - k else 0
  {
    if k > 0 && s > 0 {
      CountdownValue(s - 1, k - 1);
    }
  }

  /** After a code is sent, resending stays blocked for exactly the resend period. */
  lemma ResendBlockedForPeriod(k: nat)
    ensures Countdown(EMAIL_OTP_RESEND_SECONDS, k) > 0 <==> k < EMAIL_OTP_RESEND_SECONDS
  {
    CountdownValue(EMAIL_OTP_RESEND_SECONDS, k);
  }

  /** The e-mail change dialog's resend countdown. */
  class OtpResend {
    var open: bool
    var leftSec: int

    constructor()
      ensures !open && leftSec == 0
    {
      open := false;
      leftSec := 0;
    }

    /** `openEmailOtpModal`, and a successful resend: the full period starts again. */
    method Open()
      modifies this
      ensures open && leftSec == EMAIL_OTP_RESEND_SECONDS
    {
      leftSec := EMAIL_OTP_RESEND_SECONDS;
      open := true;
    }

    /** `closeEmailOtpModal` */
    method Close()
      modifies this
      ensures !open && leftSec == 0
    {
      open := false;
      leftSec := 0;
    }

    /** One second passes; the effect only has a timer while the dialog is open and time is left. */
    method Tick()
      modifies this
      ensures open == old(open)
      ensures leftSec == if old(open) && old(leftSec) > 0 then StepDown(old(leftSec)) else old(leftSec)
      ensures leftSec == Countdown(old(leftSec), if old(open) then 1 else 0)
      ensures old(leftSec) >= 0 ==> 0 <= leftSec
    {
      if !open || leftSec <= 0 {
        return;
      }
      leftSec := StepDown(leftSec);
    }

    /** `resendEmailOtp` returns at once while time is left. */
    predicate CanResend()
      reads this
    {
      leftSec <= 0
    }
  }

  // ------------------------------------------------------------ update prompt and resume

  /**
   * The version check's closure state (`inFlight`, `lastCheckAt`, `cancelled`)
   * together with the component state it and the resume effect read and write.
   */
  class UpdateWatch {
    const appVersion: string
    var serverVersion: Option<string>
    var updateOpen: bool
    var dismissed: string
    var inFlight: bool
    var lastCheckAt: int
    var cancelled: bool
    var resumeAttempted: bool

    /** A page load; `stored` is the dismissed version kept in local storage, "" when there is none. */
    constructor(gitSha: string, stored: string)
      ensures appVersion == AppVersion(gitSha) && serverVersion.None? && !updateOpen
      ensures dismissed == stored && !inFlight && lastCheckAt == 0 && !cancelled && !resumeAttempted
    {
      appVersion := AppVersion(gitSha);
      serverVersion := None;
      updateOpen := false;
      dismissed := stored;
      inFlight := false;
      lastCheckAt := 0;
      cancelled := false;
      resumeAttempted := false;
    }

    /**
     * The start of `check`: it asks the server only when the page is visible, no
     * check is in flight and the last one began at least 1500 ms ago.
     */
    method BeginCheck(now: int, visible: bool) returns (fetch: bool)
      modifies this
      ensures fetch <==> !old(cancelled) && visible && !old(inFlight) && now - old(lastCheckAt) >= MIN_GAP_MS
      ensures fetch ==> inFlight && lastCheckAt == now
      ensures !fetch ==> inFlight == old(inFlight) && lastCheckAt == old(lastCheckAt)
      ensures serverVersion == old(serverVersion) && updateOpen == old(updateOpen) && dismissed == old(dismissed)
      ensures cancelled == old(cancelled) && resumeAttempted == old(resumeAttempted)
    {
      if cancelled || !visible {
        return false;
      }
      if inFlight {
        return false;
      }
      if now - lastCheckAt < MIN_GAP_MS {
        return false;
      }
      lastCheckAt := now;
      inFlight := true;
      return true;
    }

    /**
     * The end of `check`, with the server's answer (`None` when the request threw).
     * A version that differs from this build's opens the prompt unless it is the
     * dismissed one (then the prompt is left as it is); a matching version closes it.
     */
    method EndCheck(res: Option<Js.Value>)
      modifies this
      ensures !inFlight && lastCheckAt == old(lastCheckAt) && dismissed == old(dismissed)
      ensures cancelled == old(cancelled) && resumeAttempted == old(resumeAttempted)
      ensures res.None? || old(cancelled) ==> serverVersion == old(serverVersion) && updateOpen == old(updateOpen)
      ensures res.Some? && !old(cancelled) ==>
        var next, current := NormalizeVersion7(Js.Get(res.value, "version")), Version7(appVersion);
        serverVersion == Some(next) &&
        (next == current ==> !updateOpen) &&
        (next != current && next != Version7(dismissed) ==> updateOpen) &&
        (next != current && next == Version7(dismissed) ==> updateOpen == old(updateOpen))
    {
      inFlight := false;
      if res.None? {
        return;
      }
      var nextServer := NormalizeVersion7(Js.Get(res.value, "version"));
      var current := Version7(appVersion);
      if cancelled {
        return;
      }
      serverVersion := Some(nextServer);
      assert nextServer != "";
      if nextServer != "" && nextServer != current {
        var seen := Version7(dismissed);
        if seen != nextServer {
          updateOpen := true;
        }
      } else {
        updateOpen := false;
      }
    }

    /** "Later": remember the offered version and close the prompt. */
    method Dismiss()
      modifies this
      ensures dismissed == ShownVersion(old(serverVersion)) && !updateOpen
      ensures serverVersion == old(serverVersion) && inFlight == old(inFlight) && lastCheckAt == old(lastCheckAt)
      ensures cancelled == old(cancelled) && resumeAttempted == old(resumeAttempted)
    {
      var v := ShownVersion(serverVersion);
      if v != "" {
        dismissed := v;
      }
      updateOpen := false;
    }

    /** The effect's cleanup: answers that arrive afterwards change nothing. */
    method Unmount()
      modifies this
      ensures cancelled
      ensures serverVersion == old(serverVersion) && updateOpen == old(updateOpen) && dismissed == old(dismissed)
      ensures inFlight == old(inFlight) && lastCheckAt == old(lastCheckAt) && resumeAttempted == old(resumeAttempted)
    {
      cancelled := true;
    }

    /** The effect on the signed-in user: signing out allows one more resume. */
    method UserChanged(signedIn: bool)
      modifies this
      ensures resumeAttempted == (signedIn && old(resumeAttempted))
      ensures serverVersion == old(serverVersion) && updateOpen == old(updateOpen) && dismissed == old(dismissed)
      ensures inFlight == old(inFlight) && lastCheckAt == old(lastCheckAt) && cancelled == old(cancelled)
    {
      if !signedIn {
        resumeAttempted := false;
      }
    }

    /**
     * The resume effect: the resume request goes out only for a signed-in user
     * whose client runs the server's version with no prompt open, and only once
     * until the user signs out.
     */
    method ResumeEffect(signedIn: bool) returns (post: bool)
      modifies this
      ensures post <==> (signedIn && !updateOpen &&
        ShownVersion(serverVersion) == Version7(appVersion) && !old(resumeAttempted))
      ensures resumeAttempted == (old(resumeAttempted) || post)
      ensures serverVersion == old(serverVersion) && updateOpen == old(updateOpen) && dismissed == old(dismissed)
      ensures inFlight == old(inFlight) && lastCheckAt == old(lastCheckAt) && cancelled == old(cancelled)
    {
      var current := Version7(appVersion);
      var next := ShownVersion(serverVersion);
      if !signedIn || next == "" || updateOpen || next != current || resumeAttempted {
        return false;
      }
      resumeAttempted := true;
      return true;
    }
  }
}
