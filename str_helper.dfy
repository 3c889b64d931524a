/**
 * Validation of the output file name typed into the recorder window
 * (Source/StrHelper.h). Strings are byte strings in the source; here they are
 * sequences of characters, and only ASCII characters belong to the name class.
 */
module StrHelper {

  const MinNameLength := 5
  const MaxNameLength := 255
  /** std::string::size_type is 64 bits wide: `length() - 4` wraps below zero. */
  const SizeModulus := 0x1_0000_0000_0000_0000
  const Mp4Suffix := ".mp4"

  /** The character class `[a-zA-Z0-9_\-\.]` of the file-name pattern. */
  predicate IsNameChar(c: char) {
    ('a' <= c <= 'z') || ('A' <= c <= 'Z') || ('0' <= c <= '9') || c == '_' || c == '-' || c == '.'
  }

  /**
   * What `std::regex_match` decides for the anchored pattern `^[class]+$`:
   * one character of the class, then either the end of the input or
   * another match of the same pattern.
   */
  predicate MatchesNamePattern(s: string)
    decreases |s|
  {
    |s| > 0 && IsNameChar(s[0]) && (|s| == 1 || MatchesNamePattern(s[1..]))
  }

  /** The pattern matches exactly the non-empty strings made of class characters. */
  lemma {:induction false} MatchesNamePatternIff(s: string)
    ensures MatchesNamePattern(s) <==> |s| > 0 && forall i :: 0 <= i < |s| ==> IsNameChar(s[i])
  {
    if |s| > 1 {
      MatchesNamePatternIff(s[1..]);
      assert forall i :: 1 <= i < |s| ==> s[i] == s[1..][i - 1];
    }
  }

  /** isValidFilename: length in [5, 255] (so never empty), then the pattern. */
  function IsValidFilename(s: string): (b: bool)
    ensures b <==> MinNameLength <= |s| <= MaxNameLength && forall i :: 0 <= i < |s| ==> IsNameChar(s[i])
  {
    MatchesNamePatternIff(s);
    if |s| == 0 || |s| > MaxNameLength || |s| < MinNameLength then false
    else MatchesNamePattern(s)
  }

  /** The outcome of a call that may throw std::out_of_range. */
  datatype Checked = Returns(value: bool) | Throws

  /** The outcome of std::string::substr(pos) with the length left to its default. */
  datatype Substring = Substring(text: string) | OutOfRange

  function SubstrFrom(s: string, pos: nat): Substring {
    if pos > |s| then OutOfRange else Substring(s[pos..])
  }

  /**
   * isMP4: the last four characters, compared case-sensitively with ".mp4".
   * Below four characters the start position wraps to a huge size_t and
   * substr throws. No std::string reaches the size_t modulus in length.
   */
  function IsMP4(s: string): (r: Checked)
    requires |s| < SizeModulus
    ensures r == Throws <==> |s| < 4
    ensures r.Returns? ==> (r.value <==> s[|s| - 4..] == Mp4Suffix)
  {
    match SubstrFrom(s, (|s| - 4) % SizeModulus)
    case OutOfRange => Throws
    case Substring(last) => Returns(last == Mp4Suffix)
  }

  /** isValidVidFileStr: `&&` evaluates isMP4 only after isValidFilename held. */
  function IsValidVidFileStr(s: string): (b: bool)
    ensures IsValidFilename(s) ==> IsMP4(s).Returns?
    ensures b <==> && MinNameLength <= |s| <= MaxNameLength
                   && (forall i :: 0 <= i < |s| ==> IsNameChar(s[i]))
                   && s[|s| - 4..] == Mp4Suffix
  {
    IsValidFilename(s) && IsMP4(s) == Returns(true)
  }

  /** A name of exactly ".mp4" is too short; the suffix check is case-sensitive. */
  lemma NameExamples()
    ensures IsValidVidFileStr("a.mp4")
    ensures !IsValidVidFileStr(".mp4") && !IsValidVidFileStr("a.MP4") && !IsValidVidFileStr("")
    ensures !IsValidVidFileStr("my video.mp4")
  {
    assert !IsNameChar("my video.mp4"[2]);
  }
}
