/** The string helpers of src/lib/utils.ts: the phone and e-mail validators
    and `truncateText`. Each regular expression is matched character by
    character; its meaning as a regular expression (a split of the input into
    the pieces the pattern names) is stated beside it and proved equal. */
module Utils {
  import opened Js

  predicate IsAsciiLetter(c: char) {
    'a' <= c <= 'z' || 'A' <= c <= 'Z'
  }

  /** One position of a fixed-length pattern: a literal or a range like `[3-9]`. */
  datatype CharClass = Exactly(c: char) | Between(lo: char, hi: char)

  predicate InClass(c: char, cls: CharClass) {
    match cls
    case Exactly(d) => c == d
    case Between(lo, hi) => lo <= c <= hi
  }

  /** An anchored pattern of fixed length matches exactly the strings of that
      length whose every character lies in the class at its position. */
  function MatchesAll(pattern: seq<CharClass>, s: string): (r: bool)
    ensures r <==> |s| == |pattern| && forall i :: 0 <= i < |s| ==> InClass(s[i], pattern[i])
  {
    if |pattern| == 0 || |s| == 0 then |pattern| == 0 && |s| == 0
    else InClass(s[0], pattern[0]) && MatchesAll(pattern[1..], s[1..])
  }

  /** `/^1[3-9]\d{9}$/`. */
  const PhonePattern: seq<CharClass> :=
    [Exactly('1'), Between('3', '9'), AnyDigit, AnyDigit, AnyDigit, AnyDigit, AnyDigit, AnyDigit, AnyDigit, AnyDigit, AnyDigit]

  /** `\d`: an ASCII digit. */
  const AnyDigit := Between('0', '9')

  /** `isValidPhone`: a mainland China mobile number. */
  function IsValidPhone(phone: string): bool {
    MatchesAll(PhonePattern, phone)
  }

  /** The phone numbers accepted are exactly the 11-digit strings starting with
      `1` whose second digit is 3 to 9; every other length is rejected. */
  lemma PhoneCharacterised(phone: string)
    ensures IsValidPhone(phone) <==>
      && |phone| == 11
      && phone[0] == '1'
      && '3' <= phone[1] <= '9'
      && forall i :: 2 <= i < 11 ==> IsDigit(phone[i])
    ensures |phone| != 11 ==> !IsValidPhone(phone)
  {
    if |phone| == 11 {
      assert forall i :: 2 <= i < 11 ==> PhonePattern[i] == AnyDigit;
    }
  }

  /** `[a-zA-Z0-9._-]`, the characters of the local part. */
  predicate LocalChar(c: char) {
    IsAsciiLetter(c) || IsDigit(c) || c == '.' || c == '_' || c == '-'
  }

  /** `[a-zA-Z0-9.-]`, the characters of the domain. */
  predicate DomainChar(c: char) {
    IsAsciiLetter(c) || IsDigit(c) || c == '.' || c == '-'
  }

  predicate AllLocal(s: string) {
    forall i :: 0 <= i < |s| ==> LocalChar(s[i])
  }

  predicate AllDomain(s: string) {
    forall i :: 0 <= i < |s| ==> DomainChar(s[i])
  }

  predicate AllLetters(s: string) {
    forall i :: 0 <= i < |s| ==> IsAsciiLetter(s[i])
  }

  /** The regular expression `/^[a-zA-Z0-9._-]+@[a-zA-Z0-9.-]+\.[a-zA-Z]{2,}$/`
      matches `s` when `s` splits as local part, `@` at `at`, domain, `.` at
      `dot`, top-level label. */
  ghost predicate EmailSplit(s: string, at: int, dot: int) {
    && 1 <= at && at + 2 <= dot && dot + 3 <= |s|
    && s[at] == '@' && s[dot] == '.'
    && AllLocal(s[..at]) && AllDomain(s[at + 1..dot]) && AllLetters(s[dot + 1..])
  }

  ghost predicate MatchesEmailRegex(s: string) {
    exists at, dot :: EmailSplit(s, at, dot)
  }

  /** The first position of `c` in `s`, or -1. */
  function IndexOf(s: string, c: char): (r: int)
    ensures -1 <= r < |s|
    ensures r == -1 <==> c !in s
    ensures r >= 0 ==> s[r] == c && forall j :: 0 <= j < r ==> s[j] != c
  {
    if |s| == 0 then -1
    else if s[0] == c then 0
    else var k := IndexOf(s[1..], c); if k == -1 then -1 else k + 1
  }

  /** The last position of `c` in `s`, or -1. */
  function LastIndexOf(s: string, c: char): (r: int)
    ensures -1 <= r < |s|
    ensures r == -1 <==> c !in s
    ensures r >= 0 ==> s[r] == c && forall j :: r < j < |s| ==> s[j] != c
  {
    if |s| == 0 then -1
    else if s[|s| - 1] == c then |s| - 1
    else LastIndexOf(s[..|s| - 1], c)
  }

  /** `isValidEmail`: the empty string is allowed; otherwise a non-empty local
      part, the first `@`, and a domain whose last `.` is not its first
      character and is followed by at least two letters to the end. */
  function IsValidEmail(email: string): bool {
    if email == "" then true
    else
      var at := IndexOf(email, '@');
      at >= 1 &&
      var domain := email[at + 1..];
      var dot := LastIndexOf(domain, '.');
      && dot >= 1
      && |domain| - dot - 1 >= 2
      && AllLocal(email[..at])
      && AllDomain(domain[..dot])
      && AllLetters(domain[dot + 1..])
  }

  /** The scan accepts exactly what the regular expression matches, and the
      empty string. */
  lemma EmailMatchesRegex(email: string)
    ensures IsValidEmail(email) <==> email == "" || MatchesEmailRegex(email)
  {
    if email != "" {
      if IsValidEmail(email) {
        EmailScanSound(email);
      }
      if MatchesEmailRegex(email) {
        var a, d :| EmailSplit(email, a, d);
        EmailScanComplete(email, a, d);
      }
    }
  }

  /** What the scan accepts splits as the regular expression requires. */
  lemma EmailScanSound(email: string)
    requires email != "" && IsValidEmail(email)
    ensures MatchesEmailRegex(email)
  {
    var at := IndexOf(email, '@');
    var domain := email[at + 1..];
    var dot := LastIndexOf(domain, '.');
    assert domain[..dot] == email[at + 1..at + 1 + dot];
    assert domain[dot + 1..] == email[at + 1 + dot + 1..];
    assert EmailSplit(email, at, at + 1 + dot);
  }

  /** Any split the regular expression finds is the one the scan finds: the
      local part holds no `@`, so `at` is the first one, and the top-level
      label holds no `.`, so `dot` is the last one. */
  lemma EmailScanComplete(email: string, at: int, dot: int)
    requires EmailSplit(email, at, dot)
    ensures IsValidEmail(email)
  {
    assert forall j :: 0 <= j < at ==> email[j] != '@' by {
      forall j | 0 <= j < at ensures email[j] != '@' {
        assert LocalChar(email[..at][j]);
      }
    }
    assert IndexOf(email, '@') == at;
    var domain := email[at + 1..];
    var k := dot - (at + 1);
    assert domain[k] == '.';
    assert forall j :: k < j < |domain| ==> domain[j] != '.' by {
      forall j | k < j < |domain| ensures domain[j] != '.' {
        assert domain[j] == email[dot + 1..][j - k - 1];
        assert IsAsciiLetter(email[dot + 1..][j - k - 1]);
      }
    }
    assert LastIndexOf(domain, '.') == k;
    assert domain[..k] == email[at + 1..dot];
    assert domain[k + 1..] == email[dot + 1..];
  }

  /** A valid non-empty address holds exactly one `@`. */
  lemma EmailHasOneAt(email: string)
    requires email != "" && IsValidEmail(email)
    ensures exists i :: 0 <= i < |email| && email[i] == '@'
    ensures forall i, j :: 0 <= i < j < |email| && email[i] == '@' ==> email[j] != '@'
  {
    var at := IndexOf(email, '@');
    var domain := email[at + 1..];
    var dot := LastIndexOf(domain, '.');
    forall i, j | 0 <= i < j < |email| && email[i] == '@' ensures email[j] != '@' {
      assert i == at;
      var k := j - at - 1;
      assert email[j] == domain[k];
      if k < dot {
        assert DomainChar(domain[..dot][k]);
      } else if k > dot {
        assert IsAsciiLetter(domain[dot + 1..][k - dot - 1]);
      }
    }
  }

  /** How many leading characters of a text of length `len` survive
      truncation: `min(len, maxLength)`, and none for a negative bound. */
  function Kept(len: nat, maxLength: int): (k: nat)
    ensures k <= len
  {
    if len < maxLength then len else if maxLength < 0 then 0 else maxLength
  }

  /** `truncateText`: the empty text stays empty; a text longer than
      `maxLength` keeps its first `maxLength` characters (none for a negative
      bound, as `substring` clamps) followed by `...`; any other text is
      returned unchanged. */
  function TruncateText(text: string, maxLength: int): (r: string)
    ensures text == "" ==> r == ""
    ensures |text| <= maxLength ==> r == text
    ensures maxLength >= 0 ==> |r| <= maxLength + 3
    ensures |r| >= Kept(|text|, maxLength) && r[..Kept(|text|, maxLength)] == text[..Kept(|text|, maxLength)]
    ensures text != "" && |text| > maxLength ==>
      |r| == Kept(|text|, maxLength) + 3 && r[|r| - 3..] == "..."
  {
    if text == "" then ""
    else if |text| > maxLength then text[..if maxLength < 0 then 0 else maxLength] + "..."
    else text
  }

  /** Truncating twice with the same bound is truncating once. */
  lemma TruncateIdempotent(text: string, maxLength: int)
    ensures TruncateText(TruncateText(text, maxLength), maxLength) == TruncateText(text, maxLength)
  {
    if text != "" && |text| > maxLength {
      var keep := if maxLength < 0 then 0 else maxLength;
      var once := text[..keep] + "...";
      assert TruncateText(text, maxLength) == once;
      assert |once| == keep + 3 > maxLength;
      assert once[..keep] == text[..keep];
      assert TruncateText(once, maxLength) == once[..keep] + "...";
    }
  }
}
