/** The client's input checks: sanitising (trim, then HTML-escape), the
    length-bounded validators for the title, the description and the location,
    the Turkish plate-number pattern, the image type and size check, and the
    per-key rate limiter that throttles form submissions. */
module Validation {
  import opened Text
  import opened Html
  import opened PlakaTypes

  /** Why a value was refused; `Message` gives the text the user sees. */
  datatype Reason =
    | UnsupportedImageType | ImageTooLarge
    | TitleTooShort | TitleTooLong
    | DescriptionTooShort | DescriptionTooLong
    | LocationTooShort | LocationTooLong

  datatype Verdict = Valid | Invalid(reason: Reason)

  function Message(r: Reason): string {
    match r
    case UnsupportedImageType => "Sadece JPEG, PNG ve WebP formatları desteklenir."
    case ImageTooLarge => "Dosya boyutu 5MB'dan küçük olmalıdır."
    case TitleTooShort => "Başlık en az 5 karakter olmalıdır."
    case TitleTooLong => "Başlık en fazla 100 karakter olabilir."
    case DescriptionTooShort => "Açıklama en az 10 karakter olmalıdır."
    case DescriptionTooLong => "Açıklama en fazla 1000 karakter olabilir."
    case LocationTooShort => "Konum en az 3 karakter olmalıdır."
    case LocationTooLong => "Konum en fazla 100 karakter olabilir."
  }

  /** `sanitizeInput`: white space is trimmed first and the rest escaped. */
  function SanitizeInput(input: string): string {
    EscapeHtml(Trim(input))
  }

  /** Text without surrounding white space is only escaped. */
  lemma SanitizeUntrimmed(s: string)
    requires s == [] || (!IsWhite(s[0]) && !IsWhite(s[|s| - 1]))
    ensures SanitizeInput(s) == EscapeHtml(s)
  {
    TrimUntouched(s);
  }

  /** Decoding sanitised text gives back exactly the trimmed input (trimming
      happens before escaping), and only all-white-space input sanitises to
      the empty string. */
  lemma SanitizeInputDecodes(input: string)
    ensures Unescape(SanitizeInput(input)) == Trim(input)
    ensures SanitizeInput(input) == [] <==> AllWhite(input)
  {
    UnescapeEscape(Trim(input));
  }

  /** Sanitised text carries no markup and no surrounding white space. */
  lemma SanitizeInputClean(input: string)
    ensures var r := SanitizeInput(input);
      && (forall i :: 0 <= i < |r| ==> r[i] != '<' && r[i] != '>')
      && (r == [] || (!IsWhite(r[0]) && !IsWhite(r[|r| - 1])))
  {
    var t := Trim(input);
    var r := EscapeHtml(t);
    assert SanitizeInput(input) == r;
    if t != [] {
      EscapeEndsNonWhite(t);
    }
  }

  // ---------------------------------------------------------------------
  // Plate numbers: ^[0-9]{2}\s*[A-Z]{1,3}\s*[0-9]{2,4}$ on the upper-cased text

  datatype CharClass = Space | Letter | Digit

  predicate InClass(c: char, k: CharClass) {
    match k
    case Space => IsWhite(c)
    case Letter => IsUpperLetter(c)
    case Digit => IsDigit(c)
  }

  predicate AllIn(s: string, k: CharClass) {
    forall i :: 0 <= i < |s| ==> InClass(s[i], k)
  }

  /** The end of the longest run of class `k` that starts at `i`. */
  function Skip(s: string, i: nat, k: CharClass): (j: nat)
    requires i <= |s|
    ensures i <= j <= |s| && AllIn(s[i..j], k)
    ensures j < |s| ==> !InClass(s[j], k)
    decreases |s| - i
  {
    if i < |s| && InClass(s[i], k) then Skip(s, i + 1, k) else i
  }

  /** A run of class `k` from `i` to `j` that cannot be extended is what `Skip` finds. */
  lemma {:induction false} SkipStops(s: string, i: nat, j: nat, k: CharClass)
    requires i <= j <= |s| && AllIn(s[i..j], k)
    requires j < |s| ==> !InClass(s[j], k)
    ensures Skip(s, i, k) == j
    decreases j - i
  {
    if i < j {
      assert s[i] == s[i..j][0];
      assert s[i + 1..j] == s[i..j][1..];
      SkipStops(s, i + 1, j, k);
    }
  }

  /** The hand-written recogniser: two digits, then the longest runs of white
      space, letters, white space and digits, with the run lengths the
      pattern allows and nothing left over. */
  predicate ScanPlate(u: string) {
    && |u| >= 2 && IsDigit(u[0]) && IsDigit(u[1])
    && var b := Skip(u, 2, Space);
       var c := Skip(u, b, Letter);
       var d := Skip(u, c, Space);
       var e := Skip(u, d, Digit);
       1 <= c - b <= 3 && 2 <= e - d <= 4 && e == |u|
  }

  /** `u` splits at `b`, `c`, `d` into the five parts the pattern names. */
  ghost predicate PlateSplit(u: string, b: nat, c: nat, d: nat) {
    && 2 <= b <= c <= d <= |u|
    && AllIn(u[..2], Digit)
    && AllIn(u[2..b], Space)
    && AllIn(u[b..c], Letter) && 1 <= c - b <= 3
    && AllIn(u[c..d], Space)
    && AllIn(u[d..], Digit) && 2 <= |u| - d <= 4
  }

  /** The language of the anchored pattern. */
  ghost predicate PlateForm(u: string) {
    exists b: nat, c: nat, d: nat :: PlateSplit(u, b, c, d)
  }

  lemma ScanPlateSound(u: string)
    requires ScanPlate(u)
    ensures PlateForm(u)
  {
    var b := Skip(u, 2, Space);
    var c := Skip(u, b, Letter);
    var d := Skip(u, c, Space);
    var e := Skip(u, d, Digit);
    assert AllIn(u[..2], Digit) by {
      assert u[..2] == [u[0], u[1]];
    }
    assert 1 <= c - b <= 3 && 2 <= e - d <= 4 && e == |u|;
    assert AllIn(u[d..], Digit) by {
      assert u[d..] == u[d..e];
    }
    assert PlateSplit(u, b, c, d);
  }

  lemma ScanPlateComplete(u: string, b: nat, c: nat, d: nat)
    requires PlateSplit(u, b, c, d)
    ensures ScanPlate(u)
  {
    assert IsDigit(u[0]) && IsDigit(u[1]) by {
      assert u[0] == u[..2][0] && u[1] == u[..2][1];
    }
    assert IsUpperLetter(u[b]) by {
      assert u[b] == u[b..c][0];
    }
    assert IsDigit(u[d]) by {
      assert u[d] == u[d..][0];
    }
    assert AllIn(u[d..|u|], Digit) by {
      assert u[d..|u|] == u[d..];
    }
    SkipStops(u, 2, b, Space);
    if c < d {
      assert IsWhite(u[c]) by {
        assert u[c] == u[c..d][0];
      }
    }
    SkipStops(u, b, c, Letter);
    SkipStops(u, c, d, Space);
    SkipStops(u, d, |u|, Digit);
  }

  /** The recogniser accepts exactly the strings the pattern matches. */
  lemma ScanPlateCorrect(u: string)
    ensures ScanPlate(u) <==> PlateForm(u)
  {
    if ScanPlate(u) {
      ScanPlateSound(u);
    }
    if PlateForm(u) {
      var b: nat, c: nat, d: nat :| PlateSplit(u, b, c, d);
      ScanPlateComplete(u, b, c, d);
    }
  }

  /** `validatePlateNumber`: the pattern is matched against the upper-cased text. */
  predicate ValidatePlateNumber(plateNumber: string) {
    ScanPlate(Upper(plateNumber))
  }

  /** The check ignores letter case. */
  lemma PlateNumberCaseInsensitive(plateNumber: string)
    ensures ValidatePlateNumber(plateNumber) == ValidatePlateNumber(Upper(plateNumber))
  {
    UpperIdempotent(plateNumber);
  }

  /** The example plate of the form, with spaces and three final digits. */
  lemma PlateNumberAcceptsSpaced()
    ensures ValidatePlateNumber("34 ABC 123")
  {
    PlateAccepted("34 ABC 123", 3, 6, 7);
  }

  /** Without spaces and with four final digits. */
  lemma PlateNumberAcceptsUnspaced()
    ensures ValidatePlateNumber("34ABC1234")
  {
    PlateAccepted("34ABC1234", 2, 5, 5);
  }

  /** Lower-case letters are accepted, since the text is upper-cased first. */
  lemma PlateNumberLowerCase()
    ensures ValidatePlateNumber("06 a 12")
  {
    assert Upper("06 a 12") == "06 A 12";
    PlateAccepted("06 A 12", 3, 4, 5);
    PlateNumberCaseInsensitive("06 a 12");
  }

  lemma PlateAccepted(u: string, b: nat, c: nat, d: nat)
    requires Upper(u) == u
    requires 2 <= b <= c <= d <= |u| && 1 <= c - b <= 3 && 2 <= |u| - d <= 4
    requires forall i :: 0 <= i < |u| ==>
      if i < 2 || d <= i then IsDigit(u[i]) else if b <= i < c then IsUpperLetter(u[i]) else IsWhite(u[i])
    ensures ValidatePlateNumber(u)
  {
    assert AllIn(u[..2], Digit);
    assert AllIn(u[2..b], Space);
    assert AllIn(u[b..c], Letter);
    assert AllIn(u[c..d], Space);
    assert AllIn(u[d..], Digit);
    ScanPlateComplete(u, b, c, d);
  }

  /** Letters first, a leading space, or four letters: all refused. */
  lemma PlateNumberRejects()
    ensures !ValidatePlateNumber("AB 12 345")
    ensures !ValidatePlateNumber(" 34 ABC 123")
    ensures !ValidatePlateNumber("34 ABCD 123")
  {
    var u1, u2, u3 := "AB 12 345", " 34 ABC 123", "34 ABCD 123";
    assert Upper(u1) == u1;
    assert Upper(u2) == u2;
    assert Upper(u3) == u3;
    assert !IsDigit(u1[0]) && !IsDigit(u2[0]);
    assert AllIn(u3[2..3], Space) && AllIn(u3[3..7], Letter);
    SkipStops(u3, 2, 3, Space);
    SkipStops(u3, 3, 7, Letter);
  }

  // ---------------------------------------------------------------------
  // Image, title, description and location

  const AllowedImageTypes: seq<string> := ["image/jpeg", "image/jpg", "image/png", "image/webp"]
  const MaxImageSize: int := 5 * 1024 * 1024

  /** `validateImageFile`: the type is checked before the size. */
  function ValidateImageFile(file: ImageFile): (v: Verdict)
    ensures v == Valid <==> file.mimeType in AllowedImageTypes && file.size <= MaxImageSize
    ensures file.mimeType !in AllowedImageTypes ==> v == Invalid(UnsupportedImageType)
    ensures file.mimeType in AllowedImageTypes && file.size > MaxImageSize ==> v == Invalid(ImageTooLarge)
  {
    if file.mimeType !in AllowedImageTypes then Invalid(UnsupportedImageType)
    else if file.size > MaxImageSize then Invalid(ImageTooLarge)
    else Valid
  }

  /** A length check on sanitised text: too short below `lo`, too long above `hi`. */
  function Bounded(text: string, lo: int, hi: int, short: Reason, long: Reason): (v: Verdict)
    ensures v == Valid <==> lo <= JsLength(SanitizeInput(text)) <= hi
    ensures v == Invalid(short) || v == Invalid(long) || v == Valid
  {
    var n := JsLength(SanitizeInput(text));
    if n < lo then Invalid(short)
    else if n > hi then Invalid(long)
    else Valid
  }

  function ValidateTitle(title: string): Verdict {
    Bounded(title, 5, 100, TitleTooShort, TitleTooLong)
  }

  function ValidateDescription(description: string): Verdict {
    Bounded(description, 10, 1000, DescriptionTooShort, DescriptionTooLong)
  }

  /** `validateLocation`: an all-white-space location is accepted as absent. */
  function ValidateLocation(location: string): (v: Verdict)
    ensures AllWhite(location) ==> v == Valid
    ensures !AllWhite(location) ==> v == Bounded(location, 3, 100, LocationTooShort, LocationTooLong)
  {
    if Trim(location) == [] then Valid
    else Bounded(location, 3, 100, LocationTooShort, LocationTooLong)
  }

  /** Text that sanitising leaves as it is: no surrounding white space, none of
      the characters escaping replaces, nothing outside the Basic Multilingual
      Plane. */
  predicate Plain(s: string) {
    && (s == [] || (!IsWhite(s[0]) && !IsWhite(s[|s| - 1])))
    && forall i :: 0 <= i < |s| ==> !IsSpecial(s[i]) && s[i] as int <= 0xFFFF
  }

  lemma PlainSanitized(s: string)
    requires Plain(s)
    ensures SanitizeInput(s) == s && JsLength(SanitizeInput(s)) == |s|
  {
    assert Trim(s) == s by {
      TrimUntouched(s);
    }
    assert EscapeHtml(s) == s by {
      EscapePlain(s);
    }
    assert JsLength(s) == |s| by {
      JsLengthBmp(s);
    }
  }

  /** On plain text the bounds are the character counts: a title of 5 or 100
      characters passes, 4 or 101 does not; likewise 10 to 1000 for a
      description and 3 to 100 for a location. */
  lemma PlainBounds(s: string)
    requires Plain(s)
    ensures ValidateTitle(s) == Valid <==> 5 <= |s| <= 100
    ensures ValidateDescription(s) == Valid <==> 10 <= |s| <= 1000
    ensures s != [] ==> (ValidateLocation(s) == Valid <==> 3 <= |s| <= 100)
  {
    PlainSanitized(s);
    if s != [] {
      assert !AllWhite(s) by { assert !IsWhite(s[0]); }
    }
  }

  /** Lengths are measured after escaping: a three-character title such as
      "<b>" is escaped to the nine characters "&lt;b&gt;" and so passes the
      five-character minimum. */
  lemma EscapedLengthCounts(c: char)
    requires !IsWhite(c) && !IsSpecial(c) && c as int <= 0xFFFF
    ensures ValidateTitle(['<', c, '>']) == Valid
  {
    var t := ['<', c, '>'];
    var e := "&lt;" + [c] + "&gt;";
    SanitizeUntrimmed(t);
    EscapeBracketed(c);
    assert JsLength(e) == 9 by {
      JsLengthBmp(e);
    }
  }

  /** `<c>` escapes to `&lt;c&gt;`. */
  lemma EscapeBracketed(c: char)
    requires !IsSpecial(c)
    ensures EscapeHtml(['<', c, '>']) == "&lt;" + [c] + "&gt;"
  {
    var t := ['<', c, '>'];
    assert t[1..] == [c, '>'] && t[1..][1..] == ['>'] && t[1..][1..][1..] == [];
    assert EscapeHtml(['>']) == "&gt;";
    assert EscapeHtml([c, '>']) == [c] + "&gt;";
  }

  // ---------------------------------------------------------------------
  // Rate limiting

  datatype Attempt = Attempt(count: int, lastAttempt: int)

  function Lookup(m: map<string, Attempt>, key: string): (r: Option<Attempt>)
    ensures r.Some? <==> key in m
    ensures r.Some? ==> r.value == m[key]
  {
    if key in m then Some(m[key]) else None
  }

  /** One `canAttempt` decision: whether a key whose entry is `prev` may try
      at time `now`, and the key's entry afterwards. */
  function Admit(prev: Option<Attempt>, now: int, maxAttempts: int, windowMs: int): (bool, Attempt) {
    match prev
    case None => (true, Attempt(1, now))
    case Some(a) =>
      if now - a.lastAttempt > windowMs then (true, Attempt(1, now))
      else if a.count >= maxAttempts then (false, a)
      else (true, Attempt(a.count + 1, now))
  }

  /** The answers to calls for one key at the given times, starting from `prev`. */
  function Outcomes(prev: Option<Attempt>, times: seq<int>, maxAttempts: int, windowMs: int): (r: seq<bool>)
    ensures |r| == |times|
    decreases |times|
  {
    if times == [] then []
    else
      var (ok, next) := Admit(prev, times[0], maxAttempts, windowMs);
      [ok] + Outcomes(Some(next), times[1..], maxAttempts, windowMs)
  }

  /** Inside one window, a key that has made `count` attempts is let through
      exactly while its count stays below the limit. */
  lemma {:induction false} BurstFrom(count: int, last: int, start: int, times: seq<int>, maxAttempts: int, windowMs: int)
    requires count >= 1 && start <= last <= start + windowMs
    requires forall i :: 0 <= i < |times| ==> start <= times[i] <= start + windowMs
    ensures Outcomes(Some(Attempt(count, last)), times, maxAttempts, windowMs)
         == seq(|times|, i => count + i < maxAttempts)
    decreases |times|
  {
    if times != [] {
      var now := times[0];
      var (ok, next) := Admit(Some(Attempt(count, last)), now, maxAttempts, windowMs);
      if count >= maxAttempts {
        assert next == Attempt(count, last) && !ok;
        BurstFrom(count, last, start, times[1..], maxAttempts, windowMs);
      } else {
        assert next == Attempt(count + 1, now) && ok;
        BurstFrom(count + 1, now, start, times[1..], maxAttempts, windowMs);
      }
    }
  }

  /** Calls for a fresh key that all fall within `windowMs` of the first one:
      the first `maxAttempts` are let through (the very first in any case)
      and every later one is refused. */
  lemma BurstAllowsFirstMax(times: seq<int>, maxAttempts: int, windowMs: int)
    requires times != []
    requires forall i :: 0 <= i < |times| ==> times[0] <= times[i] <= times[0] + windowMs
    ensures Outcomes(None, times, maxAttempts, windowMs)
         == seq(|times|, i => i == 0 || i < maxAttempts)
  {
    BurstFrom(1, times[0], times[0], times[1..], maxAttempts, windowMs);
  }

  /** A reset right after an attempt forgets the key as if it had never
      been tried. */
  lemma ResetForgetsAttempt(attempts: map<string, Attempt>, key: string, attempt: Attempt)
    ensures attempts[key := attempt] - {key} == attempts - {key}
  {
  }

  /** `RateLimiter`: per key, how many attempts were made and when the last
      one was let through. The clock is the `now` parameter of `CanAttempt`. */
  class RateLimiter {
    var attempts: map<string, Attempt>
    const maxAttempts: int
    const windowMs: int

    constructor (maxAttempts: int := 5, windowMs: int := 60000)
      ensures this.maxAttempts == maxAttempts && this.windowMs == windowMs
      ensures attempts == map[]
    {
      this.maxAttempts := maxAttempts;
      this.windowMs := windowMs;
      attempts := map[];
    }

    /** `canAttempt(key)` at time `now`. */
    method CanAttempt(key: string, now: int) returns (allowed: bool)
      modifies this
      ensures key in attempts && (allowed, attempts[key]) == Admit(Lookup(old(attempts), key), now, maxAttempts, windowMs)
      ensures attempts == old(attempts)[key := Admit(Lookup(old(attempts), key), now, maxAttempts, windowMs).1]
      ensures attempts.Keys == old(attempts).Keys + {key}
      ensures forall k :: k in old(attempts) && k != key ==> attempts[k] == old(attempts)[k]
      ensures key !in old(attempts) ==> allowed && attempts[key] == Attempt(1, now)
      ensures key in old(attempts) && now - old(attempts)[key].lastAttempt > windowMs
        ==> allowed && attempts[key] == Attempt(1, now)
      ensures key in old(attempts) && now - old(attempts)[key].lastAttempt <= windowMs
        && old(attempts)[key].count >= maxAttempts
        ==> !allowed && attempts == old(attempts)
      ensures key in old(attempts) && now - old(attempts)[key].lastAttempt <= windowMs
        && old(attempts)[key].count < maxAttempts
        ==> allowed && attempts[key] == Attempt(old(attempts)[key].count + 1, now)
    {
      if key !in attempts {
        attempts := attempts[key := Attempt(1, now)];
        return true;
      }
      var attempt := attempts[key];
      if now - attempt.lastAttempt > windowMs {
        attempts := attempts[key := Attempt(1, now)];
        return true;
      }
      if attempt.count >= maxAttempts {
        return false;
      }
      attempts := attempts[key := Attempt(attempt.count + 1, now)];
      allowed := true;
    }

    /** `reset(key)`: the key is forgotten, so its next attempt is let through. */
    method Reset(key: string)
      modifies this
      ensures attempts == old(attempts) - {key}
      ensures key !in attempts
    {
      attempts := attempts - {key};
    }
  }

  /** After `reset(key)` the next `canAttempt(key)` is let through, however
      many attempts the key had used up. */
  method ResetThenAttempt(limiter: RateLimiter, key: string, now: int) returns (allowed: bool)
    modifies limiter
    ensures allowed && key in limiter.attempts && limiter.attempts[key] == Attempt(1, now)
  {
    limiter.Reset(key);
    allowed := limiter.CanAttempt(key, now);
  }
}
