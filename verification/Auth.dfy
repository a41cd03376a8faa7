/** Authentication as data: the password editor's fields and what each handler does to them, the PAM
    conversation and its verdicts, and the worker loop. Times are `Instant`s in nanoseconds. */
module Auth {
  import opened Words

  type Time = nat
  const SECOND: Time := 1_000_000_000

  // ---- the locker's authentication fields ----

  datatype Fields = Fields(password: string, failed: bool, verifying: bool, failCount: nat,
                           lockedUntil: Option<Time>, nextAttemptId: nat)

  const NO_ATTEMPT_YET := Fields("", false, false, 0, None, 1)

  datatype Attempt = Attempt(id: nat, password: string)

  datatype Keysym = Return | KpEnter | BackSpace | Escape | Other

  datatype KeyEvent = KeyEvent(keysym: Keysym, utf8: Option<string>)

  /** Rust's `char::is_control`: the general category Cc. */
  predicate IsControl(c: char) {
    c as int < 0x20 || 0x7F <= c as int <= 0x9F
  }

  predicate ControlFree(s: string) {
    forall i :: 0 <= i < |s| ==> !IsControl(s[i])
  }

  predicate BackoffActive(f: Fields, now: Time) {
    f.lockedUntil.Some? && now < f.lockedUntil.value
  }

  function SaturatingInc(x: nat, max: nat): nat {
    if x >= max then max else x + 1
  }

  /** `1s, 2s, 3s, 4s, 5s, 5s, ...` after the first, second, ... failed verdict. */
  function Delay(failures: nat): Time {
    Min(failures, 5) * SECOND
  }

  /** A handler's effect: the new fields, the attempt it queued, and how often it redraws the locks. */
  datatype Handled = Handled(fields: Fields, sent: Option<Attempt>, redraws: nat)

  /** `submit`; `delivered` is whether the worker still holds its end of the channel. */
  function Submit(f: Fields, now: Time, delivered: bool): Handled {
    if f.verifying || BackoffActive(f, now) || f.password == "" then Handled(f, None, 0)
    else
      var attempt := Attempt(f.nextAttemptId, f.password);
      var taken := f.(nextAttemptId := SaturatingInc(f.nextAttemptId, U64_MAX), password := "",
                      verifying := true, failed := false);
      if delivered then Handled(taken, Some(attempt), 1)
      else Handled(taken.(verifying := false, failed := true), None, 2)
  }

  /** `press_key`. The clock is read on entry and again by `submit`. */
  function PressKey(f: Fields, key: KeyEvent, now: Time, later: Time, delivered: bool): Handled {
    if f.verifying || BackoffActive(f, now) then Handled(f, None, 0)
    else
      match key.keysym
      case Return => Submit(f, later, delivered)
      case KpEnter => Submit(f, later, delivered)
      case BackSpace => Handled(f.(password := WithoutLast(f.password), failed := false), None, 1)
      case Escape => Handled(f.(password := "", failed := false), None, 1)
      case Other =>
        if key.utf8.Some? && key.utf8.value != "" && ControlFree(key.utf8.value)
        then Handled(f.(password := f.password + key.utf8.value, failed := false), None, 1)
        else Handled(f, None, 0)
  }

  // ---- what keys do, without the code ----

  /** Nothing in flight and no backoff running. */
  predicate Accepting(f: Fields, now: Time) {
    !f.verifying && (f.lockedUntil == None || f.lockedUntil.value <= now)
  }

  predicate IsEnter(key: KeyEvent) {
    key.keysym == Return || key.keysym == KpEnter
  }

  /** Not empty, and from a space to a tilde or from a no-break space on. */
  predicate Printable(text: string) {
    text != "" && forall i :: 0 <= i < |text| ==> ' ' <= text[i] <= '~' || text[i] as int >= 0xA0
  }

  predicate IsEdit(key: KeyEvent) {
    || key.keysym == BackSpace || key.keysym == Escape
    || (key.keysym == Other && key.utf8.Some? && Printable(key.utf8.value))
  }

  /** BackSpace takes the last character if there is one, Escape takes all, and text is added at the end. */
  predicate Edited(before: string, key: KeyEvent, after: string) {
    match key.keysym
    case BackSpace => after <= before && |after| == if before == "" then 0 else |before| - 1
    case Escape => after == ""
    case _ => key.utf8.Some? && after == before + key.utf8.value
  }

  /** What a key press does: an accepted edit changes the buffer, dismisses a failure and repaints the locks;
      an accepted Enter takes all of a non-empty buffer as the next attempt and repaints them, and once more if
      it could not be delivered, which counts as a failure; nothing else does anything. */
  predicate KeyDoes(f: Fields, key: KeyEvent, now: Time, delivered: bool, h: Handled) {
    if Accepting(f, now) && IsEdit(key) then
      && Edited(f.password, key, h.fields.password)
      && h.fields == f.(password := h.fields.password, failed := false)
      && h.sent == None && h.redraws == 1
    else if Accepting(f, now) && IsEnter(key) && f.password != "" then
      && h.sent == (if delivered then Some(Attempt(f.nextAttemptId, f.password)) else None)
      && h.fields == f.(password := "", verifying := delivered, failed := !delivered,
                        nextAttemptId := Min(f.nextAttemptId + 1, U64_MAX))
      && h.redraws == if delivered then 1 else 2
    else h == Handled(f, None, 0)
  }

  lemma KeyExactly(f: Fields, key: KeyEvent, now: Time, later: Time, delivered: bool)
    requires now <= later
    ensures KeyDoes(f, key, now, delivered, PressKey(f, key, now, later, delivered))
  {
  }

  function WithoutLast(s: string): string {
    if s == "" then "" else s[..|s| - 1]
  }

  /** `on_auth` for every verdict but success. */
  function Refuse(f: Fields, now: Time): Fields {
    var count := SaturatingInc(f.failCount, U32_MAX);
    f.(verifying := false, failed := true, password := "", failCount := count, lockedUntil := Some(now + Delay(count)))
  }

  /** The repaint tick's sweep of an expired backoff. */
  function Sweep(f: Fields, now: Time): Fields {
    if f.lockedUntil.Some? && now >= f.lockedUntil.value then f.(lockedUntil := None) else f
  }

  // ---- what the lock screen is told ----

  datatype AuthState = Idle(typed: nat) | Verifying | Failed

  function View(f: Fields): AuthState {
    if f.verifying then Verifying else if f.failed then Failed else Idle(|f.password|)
  }

  // ---- PAM ----

  datatype ErrorCode = MAXTRIES | AUTH_ERR | USER_UNKNOWN | CRED_INSUFFICIENT | AUTHINFO_UNAVAIL | CONV_ERR | ANY_OTHER

  datatype Outcome = Unlocked | Wrong | MaxTries | Error

  /** How one PAM transaction ends: no context, success, or a refusal with a code. */
  datatype PamReply = NoContext(code: ErrorCode) | Success | Refusal(code: ErrorCode)

  function OutcomeOf(reply: PamReply): Outcome {
    match reply
    case NoContext(_) => Error
    case Success => Unlocked
    case Refusal(MAXTRIES) => MaxTries
    case Refusal(AUTH_ERR) => Wrong
    case Refusal(USER_UNKNOWN) => Wrong
    case Refusal(CRED_INSUFFICIENT) => Wrong
    case Refusal(AUTHINFO_UNAVAIL) => Wrong
    case Refusal(_) => Error
  }

  /** The outcome of a transaction, told from PAM's own reply: unlocked for a success, too many tries for that
      refusal, wrong for the four refusals that blame the credentials, and an error for anything else. */
  predicate Judges(outcome: Outcome, reply: PamReply) {
    && (outcome == Unlocked <==> reply == Success)
    && (outcome == MaxTries <==> reply == Refusal(MAXTRIES))
    && (outcome == Wrong <==>
        reply.Refusal? && reply.code in {AUTH_ERR, USER_UNKNOWN, CRED_INSUFFICIENT, AUTHINFO_UNAVAIL})
  }

  datatype Prompt = EchoOff | EchoOn | TextInfo | ErrorMsg | RadioPrompt | BinaryPrompt

  datatype Answer = Bytes(bytes: seq<Byte>) | Acknowledged | ConvErr

  /** UTF-8, as `String::as_bytes` exposes it. */
  function Utf8(s: string): seq<Byte> {
    if s == "" then [] else Utf8Char(s[0]) + Utf8(s[1..])
  }

  function Utf8Char(c: char): seq<Byte> {
    var x := c as int;
    if x < 0x80 then [x]
    else if x < 0x800 then [0xC0 + x / 0x40, 0x80 + x % 0x40]
    else if x < 0x1_0000 then [0xE0 + x / 0x1000, 0x80 + x / 0x40 % 0x40, 0x80 + x % 0x40]
    else [0xF0 + x / 0x4_0000 % 8, 0x80 + x / 0x1000 % 0x40, 0x80 + x / 0x40 % 0x40, 0x80 + x % 0x40]
  }

  /** The code point a UTF-8 sequence of one to four bytes stands for, as section 3 of RFC 3629 lays it out. */
  function CodePoint(bytes: seq<Byte>): int
    requires 1 <= |bytes| <= 4
  {
    var digit := (i: nat) requires i < |bytes| => bytes[i] as int - 0x80;
    match |bytes|
    case 1 => bytes[0]
    case 2 => (bytes[0] as int - 0xC0) * 0x40 + digit(1)
    case 3 => (bytes[0] as int - 0xE0) * 0x1000 + digit(1) * 0x40 + digit(2)
    case _ => (bytes[0] as int - 0xF0) * 0x4_0000 + digit(1) * 0x1000 + digit(2) * 0x40 + digit(3)
  }

  /** Continuation bytes where they belong, and no shorter form for the same character. */
  predicate Canonical(bytes: seq<Byte>)
    requires 1 <= |bytes| <= 4
  {
    && (forall k :: 1 <= k < |bytes| ==> 0x80 <= bytes[k] < 0xC0)
    && CodePoint(bytes) >= (match |bytes| case 1 => 0 case 2 => 0x80 case 3 => 0x800 case _ => 0x1_0000)
  }

  function CharAt(x: int): char {
    if 0 <= x < 0xD800 || 0xE000 <= x < 0x11_0000 then x as char else '\U{FFFD}'
  }

  /** A decoder that stops at what is no UTF-8: the first byte of each sequence tells its length. */
  function FromUtf8(bytes: seq<Byte>): string
    decreases |bytes|
  {
    if bytes == [] then ""
    else
      var n := if bytes[0] < 0xC0 then 1 else if bytes[0] < 0xE0 then 2 else if bytes[0] < 0xF0 then 3 else 4;
      if |bytes| < n || !Canonical(bytes[..n]) then "" else [CharAt(CodePoint(bytes[..n]))] + FromUtf8(bytes[n..])
  }

  lemma DigitsOfDigits(x: nat)
    ensures x / 0x1000 == x / 0x40 / 0x40 && x / 0x4_0000 == x / 0x40 / 0x40 / 0x40
  {
  }

  lemma ThreeByteChar(c: char)
    requires 0x800 <= c as int < 0x1_0000
    ensures CodePoint(Utf8Char(c)) == c as int && Canonical(Utf8Char(c))
  {
    DigitsOfDigits(c as int);
  }

  lemma FourByteChar(c: char)
    requires 0x1_0000 <= c as int
    ensures CodePoint(Utf8Char(c)) == c as int && Canonical(Utf8Char(c))
  {
    DigitsOfDigits(c as int);
    assert c as int / 0x4_0000 < 8;
  }

  lemma Utf8CharRoundTrip(c: char)
    ensures 1 <= |Utf8Char(c)| <= 4 && CodePoint(Utf8Char(c)) == c as int && Canonical(Utf8Char(c))
    ensures var b := Utf8Char(c)[0];
            |Utf8Char(c)| == if b < 0xC0 then 1 else if b < 0xE0 then 2 else if b < 0xF0 then 3 else 4
  {
    if c as int >= 0x1_0000 {
      FourByteChar(c);
      hide CodePoint, Canonical;
    } else if c as int >= 0x800 {
      ThreeByteChar(c);
      hide CodePoint, Canonical;
    }
  }

  /** Decoding inverts encoding. */
  lemma {:induction false} Utf8RoundTrip(s: string)
    ensures FromUtf8(Utf8(s)) == s
  {
    if s != "" {
      var first, rest := Utf8Char(s[0]), Utf8(s[1..]);
      Utf8CharRoundTrip(s[0]);
      Utf8RoundTrip(s[1..]);
      assert (first + rest)[..|first|] == first && (first + rest)[|first|..] == rest && (first + rest)[0] == first[0];
      hide CodePoint, Canonical, Utf8Char;
    }
  }

  lemma {:induction false} Utf8Append(a: string, b: string)
    ensures Utf8(a + b) == Utf8(a) + Utf8(b)
  {
    if a == "" {
      assert a + b == b;
    } else {
      Utf8Append(a[1..], b);
      assert (a + b)[1..] == a[1..] + b;
      AppendAssociates(Utf8Char(a[0]), Utf8(a[1..]), Utf8(b));
      hide Utf8Char;
    }
  }

  predicate IsAscii(s: string) {
    forall i :: 0 <= i < |s| ==> s[i] as int < 0x80
  }

  lemma {:induction false} AsciiIsItself(s: string)
    requires IsAscii(s)
    ensures |Utf8(s)| == |s| && forall i :: 0 <= i < |s| ==> Utf8(s)[i] == s[i] as int
  {
    if s != "" {
      AsciiIsItself(s[1..]);
    }
  }

  /** `CString::new`: refuses interior NUL bytes. */
  function CStringNew(bytes: seq<Byte>): Option<seq<Byte>> {
    if 0 in bytes then None else Some(bytes + [0])
  }

  /** `PasswordConversation`: both password prompts get the password, everything else fails closed. */
  function Converse(password: string, prompt: Prompt): Answer {
    match prompt
    case TextInfo => Acknowledged
    case ErrorMsg => Acknowledged
    case RadioPrompt => ConvErr
    case BinaryPrompt => ConvErr
    case _ =>
      match CStringNew(Utf8(password))
      case Some(bytes) => Bytes(bytes)
      case None => ConvErr
  }

  lemma {:induction false} NulIsByteZero(s: string)
    ensures 0 in Utf8(s) <==> '\0' in s
  {
    if s != "" {
      assert s == [s[0]] + s[1..];
      assert 0 in Utf8Char(s[0]) <==> s[0] == '\0';
      NulIsByteZero(s[1..]);
      hide Utf8Char;
    }
  }

  /** The answer is this password's characters as bytes, in order, and a NUL after them. */
  predicate Carries(answer: Answer, password: string) {
    && answer.Bytes? && answer.bytes != []
    && var n := |answer.bytes| - 1;
       && answer.bytes[n] == 0 && 0 !in answer.bytes[..n]
       && FromUtf8(answer.bytes[..n]) == password
       && (IsAscii(password) ==> n == |password| && forall i :: 0 <= i < n ==> answer.bytes[i] == password[i] as int)
  }

  lemma Utf8Carries(password: string)
    requires '\0' !in password
    ensures 0 !in Utf8(password) && Carries(Bytes(Utf8(password) + [0]), password)
  {
    NulIsByteZero(password);
    Utf8RoundTrip(password);
    assert (Utf8(password) + [0])[..|Utf8(password)|] == Utf8(password);
    if IsAscii(password) {
      AsciiIsItself(password);
    }
    hide Utf8, FromUtf8;
  }

  /** What PAM is answered with: at a password prompt the password, unless there is a NUL in it; an
      acknowledgement of messages; and an error for anything else. */
  lemma AnswersExactly(password: string, prompt: Prompt)
    ensures var answer := Converse(password, prompt);
            && (answer.Bytes? <==> (prompt == EchoOff || prompt == EchoOn) && '\0' !in password)
            && (answer.Bytes? ==> Carries(answer, password))
            && (answer == Acknowledged <==> prompt == TextInfo || prompt == ErrorMsg)
  {
    hide Utf8, Carries;
    if '\0' in password {
      NulIsByteZero(password);
    } else {
      Utf8Carries(password);
    }
  }

  /** A control-free password always reaches PAM's password prompts: as itself, and NUL-terminated. */
  lemma PasswordPromptIsAnswered(password: string, prompt: Prompt)
    requires ControlFree(password) && (prompt == EchoOff || prompt == EchoOn)
    ensures Carries(Converse(password, prompt), password)
  {
    assert IsControl('\0');
    AnswersExactly(password, prompt);
    hide Carries, Converse;
  }

  // ---- the worker loop ----

  datatype Result = Result(id: nat, outcome: Outcome)

  /** The results for the attempts of a channel, up to and including the first success. `pam` is any
      function of the attempts already made and the current one. */
  function Verdicts(attempts: seq<Attempt>, made: seq<Attempt>, pam: (seq<Attempt>, Attempt) -> PamReply): seq<Result>
    decreases |attempts|
  {
    if attempts == [] then []
    else
      var outcome := OutcomeOf(pam(made, attempts[0]));
      [Result(attempts[0].id, outcome)]
      + if outcome == Unlocked then [] else Verdicts(attempts[1..], made + [attempts[0]], pam)
  }

  /** The worker answers attempts in order, each as PAM's reply has it, "unlocked" therefore exactly for one PAM
      accepted, and nothing follows a success. */
  lemma {:induction false} OnlyPamUnlocks(attempts: seq<Attempt>, made: seq<Attempt>,
                                          pam: (seq<Attempt>, Attempt) -> PamReply, i: nat)
    requires i < |Verdicts(attempts, made, pam)|
    ensures var results := Verdicts(attempts, made, pam);
            && i < |attempts|
            && results[i].id == attempts[i].id
            && Judges(results[i].outcome, pam(made + attempts[..i], attempts[i]))
            && (results[i].outcome == Unlocked ==> i == |results| - 1)
  {
    if i == 0 {
      assert made + attempts[..0] == made;
    } else {
      OnlyPamUnlocks(attempts[1..], made + [attempts[0]], pam, i - 1);
      assert made + attempts[..i] == made + [attempts[0]] + attempts[1..][..i - 1];
    }
  }

  /** Every attempt is answered unless an earlier one succeeded. */
  lemma {:induction false} WorkerAnswersUntilSuccess(attempts: seq<Attempt>, made: seq<Attempt>,
                                                     pam: (seq<Attempt>, Attempt) -> PamReply)
    ensures var results := Verdicts(attempts, made, pam);
            |results| < |attempts| ==> results != [] && results[|results| - 1].outcome == Unlocked
    decreases |attempts|
  {
    if attempts != [] && OutcomeOf(pam(made, attempts[0])) != Unlocked {
      WorkerAnswersUntilSuccess(attempts[1..], made + [attempts[0]], pam);
    }
  }

  /** Answers in order and under the attempts' ids, each as PAM replied to it, up to the first success, and to
      the end if there is none. */
  predicate Answered(attempts: seq<Attempt>, pam: (seq<Attempt>, Attempt) -> PamReply, results: seq<Result>) {
    && |results| <= |attempts|
    && (forall i :: 0 <= i < |results| ==> results[i].id == attempts[i].id)
    && (forall i :: 0 <= i < |results| ==> Judges(results[i].outcome, pam(attempts[..i], attempts[i])))
    && (forall i :: 0 <= i < |results| - 1 ==> results[i].outcome != Unlocked)
    && (|results| < |attempts| ==> results != [] && results[|results| - 1].outcome == Unlocked)
  }

  lemma VerdictsAnswer(attempts: seq<Attempt>, pam: (seq<Attempt>, Attempt) -> PamReply)
    ensures Answered(attempts, pam, Verdicts(attempts, [], pam))
  {
    var results := Verdicts(attempts, [], pam);
    WorkerAnswersUntilSuccess(attempts, [], pam);
    forall i | 0 <= i < |results|
      ensures i < |attempts| && results[i].id == attempts[i].id
      ensures Judges(results[i].outcome, pam(attempts[..i], attempts[i]))
      ensures results[i].outcome == Unlocked ==> i == |results| - 1
    {
      OnlyPamUnlocks(attempts, [], pam, i);
      assert [] + attempts[..i] == attempts[..i];
    }
    if results != [] {
      OnlyPamUnlocks(attempts, [], pam, |results| - 1);
    }
    hide Verdicts, Judges;
  }

  /** The body of the worker thread, for the attempts it is sent before the channel closes. */
  method Serve(attempts: seq<Attempt>, pam: (seq<Attempt>, Attempt) -> PamReply) returns (results: seq<Result>)
    ensures results == Verdicts(attempts, [], pam)
    ensures Answered(attempts, pam, results)
  {
    VerdictsAnswer(attempts, pam);
    hide Answered;
    results := [];
    var pending, made := attempts, [];
    while pending != []
      invariant Verdicts(attempts, [], pam) == results + Verdicts(pending, made, pam)
      decreases |pending|
    {
      var attempt := pending[0];
      pending := pending[1..];
      var outcome := OutcomeOf(pam(made, attempt));
      made := made + [attempt];
      AppendAssociates(results, [Result(attempt.id, outcome)],
                       if outcome == Unlocked then [] else Verdicts(pending, made, pam));
      results := results + [Result(attempt.id, outcome)];
      if outcome == Unlocked {
        assert results + [] == results;
        break;
      }
    }
  }
}
