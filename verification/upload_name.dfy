/** The pure part of the image-upload endpoint: the order of its early
    refusals, the cleaning of the client-supplied file name, and the storage
    key `userId/timestamp_name` the upload is filed under. */
module UploadName {
  import opened Wrappers

  /** Characters the file-name filter keeps: ASCII letters, digits, `.`, `-`. */
  predicate IsKept(c: char) {
    ('a' <= c <= 'z') || ('A' <= c <= 'Z') || ('0' <= c <= '9') || c == '.' || c == '-'
  }

  /** Characters a cleaned name may contain: the kept ones and the
      replacement `_`. */
  predicate IsSafe(c: char) {
    IsKept(c) || c == '_'
  }

  predicate AllSafe(s: string) {
    forall i :: 0 <= i < |s| ==> IsSafe(s[i])
  }

  /** The global replacement of every character outside the kept class by `_`. */
  function ReplaceUnkept(s: string): (r: string)
    ensures |r| == |s|
    ensures forall i :: 0 <= i < |s| ==> (IsKept(s[i]) ==> r[i] == s[i]) && (!IsKept(s[i]) ==> r[i] == '_')
    ensures AllSafe(r)
    decreases |s|
  {
    if s == [] then []
    else [if IsKept(s[0]) then s[0] else '_'] + ReplaceUnkept(s[1..])
  }

  /** The fallback name for a missing or empty file name. */
  const DefaultName: string := "upload"

  /** The cleaned file name: the replacement applied to the supplied name,
      or the fallback when the name is absent or the result is empty. */
  function SanitizeFileName(fileName: Option<string>): (r: string)
    ensures r != []
    ensures AllSafe(r)
    ensures fileName.None? || fileName.value == [] ==> r == DefaultName
    ensures fileName.Some? && fileName.value != [] ==>
      && |r| == |fileName.value|
      && forall i :: 0 <= i < |r| ==>
           (IsKept(fileName.value[i]) ==> r[i] == fileName.value[i]) && (!IsKept(fileName.value[i]) ==> r[i] == '_')
  {
    match fileName
    case None => DefaultName
    case Some(name) =>
      var cleaned := ReplaceUnkept(name);
      if cleaned == [] then DefaultName else cleaned
  }

  /** A name made only of safe characters is left as it is. */
  lemma ReplaceFixesSafe(s: string)
    requires AllSafe(s)
    ensures ReplaceUnkept(s) == s
  {
  }

  /** Cleaning a cleaned name changes nothing. */
  lemma SanitizeIdempotent(fileName: Option<string>)
    ensures SanitizeFileName(Some(SanitizeFileName(fileName))) == SanitizeFileName(fileName)
  {
  }

  /** The names cleaning leaves alone are exactly the non-empty names of safe
      characters. */
  lemma SanitizeFixedPoints(s: string)
    ensures SanitizeFileName(Some(s)) == s <==> s != [] && AllSafe(s)
  {
  }

  /** The decimal digit for 0..9. */
  function Digit(d: nat): (c: char)
    requires d < 10
    ensures '0' <= c <= '9'
  {
    "0123456789"[d]
  }

  /** The value of a decimal digit character. */
  function DigitValue(c: char): (d: nat)
    requires '0' <= c <= '9'
    ensures d < 10 && Digit(d) == c
  {
    c as nat - '0' as nat
  }

  predicate AllDigits(s: string) {
    forall i :: 0 <= i < |s| ==> '0' <= s[i] <= '9'
  }

  /** A millisecond timestamp written in decimal, as a template literal
      renders a whole number. */
  function DecimalString(n: nat): (s: string)
    ensures s != [] && AllDigits(s)
    decreases n
  {
    if n < 10 then [Digit(n)]
    else DecimalString(n / 10) + [Digit(n % 10)]
  }

  /** Reads a string of decimal digits back as a number. */
  function DecimalValue(s: string): (n: nat)
    requires AllDigits(s)
    decreases |s|
  {
    if s == [] then 0
    else 10 * DecimalValue(s[..|s| - 1]) + DigitValue(s[|s| - 1])
  }

  /** Reading a rendered timestamp gives back the timestamp. */
  lemma {:induction false} DecimalRoundTrip(n: nat)
    ensures DecimalValue(DecimalString(n)) == n
    decreases n
  {
    var s := DecimalString(n);
    if n < 10 {
      assert s == [Digit(n)];
      assert s[..0] == [];
    } else {
      var prefix := DecimalString(n / 10);
      assert s[..|s| - 1] == prefix;
      assert s[|s| - 1] == Digit(n % 10);
      DecimalRoundTrip(n / 10);
    }
  }

  /** A rendered timestamp has no leading zero: zero is "0" and any other
      number starts with a non-zero digit, as JavaScript renders whole numbers. */
  lemma {:induction false} NoLeadingZero(n: nat)
    ensures n == 0 ==> DecimalString(n) == "0"
    ensures n > 0 ==> DecimalString(n)[0] != '0'
    decreases n
  {
    if n >= 10 {
      NoLeadingZero(n / 10);
      assert DecimalString(n)[0] == DecimalString(n / 10)[0];
    }
  }

  /** The storage key the upload is filed under. */
  function UniqueFileName(userId: string, timestamp: nat, fileName: Option<string>): (key: string)
    ensures |key| == |userId| + 1 + |DecimalString(timestamp)| + 1 + |SanitizeFileName(fileName)|
    ensures key[..|userId| + 1] == userId + "/"
  {
    userId + "/" + DecimalString(timestamp) + "_" + SanitizeFileName(fileName)
  }

  /** The position of the first `c` in `s`, if any. */
  function IndexOf(s: string, c: char): (r: Option<nat>)
    ensures r.Some? ==> r.value < |s| && s[r.value] == c && c !in s[..r.value]
    ensures r.None? ==> c !in s
    decreases |s|
  {
    if s == [] then None
    else if s[0] == c then Some(0)
    else match IndexOf(s[1..], c)
      case None => None
      case Some(k) =>
        assert s[..k + 1] == [s[0]] + s[1..][..k];
        Some(k + 1)
  }

  /** The two parts of a storage key. */
  datatype KeyParts = KeyParts(timestamp: nat, name: string)

  /** Splits a storage key of the given user back into its timestamp and
      cleaned name; keys of another shape give nothing. */
  function ParseKey(userId: string, key: string): Option<KeyParts> {
    var prefix := userId + "/";
    if |key| < |prefix| || key[..|prefix|] != prefix then None
    else
      var rest := key[|prefix|..];
      match IndexOf(rest, '_')
      case None => None
      case Some(k) =>
        if k == 0 || !AllDigits(rest[..k]) then None
        else Some(KeyParts(DecimalValue(rest[..k]), rest[k + 1..]))
  }

  /** A digit string contains no `_`. */
  lemma NoUnderscoreInDigits(s: string)
    requires AllDigits(s)
    ensures '_' !in s
  {
  }

  /** The storage key determines the timestamp and the cleaned name it was
      built from. */
  lemma KeyRoundTrip(userId: string, timestamp: nat, fileName: Option<string>)
    ensures ParseKey(userId, UniqueFileName(userId, timestamp, fileName)) ==
      Some(KeyParts(timestamp, SanitizeFileName(fileName)))
  {
    var digits := DecimalString(timestamp);
    var name := SanitizeFileName(fileName);
    var key := UniqueFileName(userId, timestamp, fileName);
    var prefix := userId + "/";
    assert key == prefix + (digits + "_" + name);
    var rest := digits + "_" + name;
    assert key[|prefix|..] == rest;
    NoUnderscoreInDigits(digits);
    var k := IndexOf(rest, '_');
    assert rest[|digits|] == '_';
    assert rest[..|digits|] == digits;
    assert k == Some(|digits|);
    assert rest[|digits| + 1..] == name;
    DecimalRoundTrip(timestamp);
  }

  /** How the endpoint's early checks end. */
  datatype Preflight =
    | Unauthorized
    | NoFile
    | Proceed(key: string)

  /** The HTTP status each outcome answers with (a proceeding upload answers
      200 when the upload service succeeds). */
  function Status(p: Preflight): int {
    match p
    case Unauthorized => 401
    case NoFile => 400
    case Proceed(_) => 200
  }

  /** The checks before the upload: authentication first (an absent or
      empty user id is not signed in), then the file, then the storage key.
      `file` is the uploaded bytes when a file part is present. */
  function CheckUpload(userId: Option<string>, file: Option<seq<bv8>>, fileName: Option<string>, now: nat): (r: Preflight)
    ensures userId.None? || userId.value == [] <==> Status(r) == 401
    ensures userId.Some? && userId.value != [] && file.None? <==> Status(r) == 400
    ensures r.Proceed? <==> userId.Some? && userId.value != [] && file.Some?
    ensures r.Proceed? ==> ParseKey(userId.value, r.key) == Some(KeyParts(now, SanitizeFileName(fileName)))
    ensures r.Proceed? ==>
      |r.key| == |userId.value| + 1 + |DecimalString(now)| + 1 + |SanitizeFileName(fileName)|
    ensures r.Proceed? ==> r.key == UniqueFileName(userId.value, now, fileName)
  {
    if userId.None? || userId.value == [] then Unauthorized
    else if file.None? then NoFile
    else
      KeyRoundTrip(userId.value, now, fileName);
      Proceed(UniqueFileName(userId.value, now, fileName))
  }
}
