/**
  Translation of the IMAP flags a fetched message carries into the info-flag
  letters of a Maildir file name, as the writer task does before storing each
  message (src/getmail.rs, `MaildirFlag` and `flags_for_maildir`).
 */
module Flags {
  import opened Wrappers

  /** The flags of a message as the `imap` crate reports them: the system flags
      of section 2.3.2 of RFC 3501 plus the crate's extra variants. */
  datatype Flag =
    | Seen
    | Answered
    | Flagged
    | Deleted
    | Draft
    | Recent
    | MayCreate
    | Custom(name: string)

  /** One Maildir info-flag letter (a newtype around `char` in the source). */
  datatype MaildirFlag = MaildirFlag(code: char) {
    function AsChar(): char {
      code
    }
  }

  /** The letters the translation can produce, one per recognised flag. */
  const MAILDIR_CODES: string := "SRFTD"

  /** The flags the Maildir convention has a letter for. */
  predicate HasMaildirCode(f: Flag) {
    f.Seen? || f.Answered? || f.Flagged? || f.Deleted? || f.Draft?
  }

  /** `MaildirFlag::from`: the letter of a recognised flag, nothing for the rest. */
  function FromFlag(f: Flag): (r: Option<MaildirFlag>)
    ensures r.Some? <==> HasMaildirCode(f)
    ensures r.Some? ==> r.value.AsChar() in MAILDIR_CODES
  {
    match f
    case Seen => Some(MaildirFlag('S'))
    case Answered => Some(MaildirFlag('R'))
    case Flagged => Some(MaildirFlag('F'))
    case Deleted => Some(MaildirFlag('T'))
    case Draft => Some(MaildirFlag('D'))
    case _ => None
  }

  /** The reading of a Maildir letter back as an IMAP flag: the inverse of
      `FromFlag` on the recognised flags. */
  function ToFlag(c: char): Option<Flag> {
    match c
    case 'S' => Some(Seen)
    case 'R' => Some(Answered)
    case 'F' => Some(Flagged)
    case 'T' => Some(Deleted)
    case 'D' => Some(Draft)
    case _ => None
  }

  /** A recognised flag survives the trip to its letter and back, and no two
      recognised flags share a letter. */
  lemma FromFlagRoundTrip(f: Flag)
    requires HasMaildirCode(f)
    ensures FromFlag(f).Some? && ToFlag(FromFlag(f).value.AsChar()) == Some(f)
  {
  }

  /** Every Maildir letter of the five is produced by exactly the flag it reads as. */
  lemma ToFlagRoundTrip(c: char)
    requires c in MAILDIR_CODES
    ensures ToFlag(c).Some? && HasMaildirCode(ToFlag(c).value)
    ensures FromFlag(ToFlag(c).value) == Some(MaildirFlag(c))
  {
  }

  /** `flags_for_maildir`: the letters of the recognised flags, in the order the
      flags were reported; other flags contribute nothing. */
  function FlagsForMaildir(flags: seq<Flag>): (r: string)
    ensures |r| <= |flags|
    ensures forall j :: 0 <= j < |r| ==> r[j] in MAILDIR_CODES
    ensures |r| == |flags| <==> forall i :: 0 <= i < |flags| ==> HasMaildirCode(flags[i])
  {
    if flags == [] then ""
    else
      var rest := FlagsForMaildir(flags[1..]);
      assert forall i :: 1 <= i < |flags| ==> flags[1..][i - 1] == flags[i];
      match FromFlag(flags[0])
      case Some(mf) => [mf.AsChar()] + rest
      case None => rest
  }

  /** The recognised flags of a sequence, in order: what the letters stand for. */
  function RecognisedFlags(flags: seq<Flag>): seq<Flag> {
    if flags == [] then []
    else if HasMaildirCode(flags[0]) then [flags[0]] + RecognisedFlags(flags[1..])
    else RecognisedFlags(flags[1..])
  }

  /** The reading of a Maildir info string as IMAP flags, skipping unknown letters. */
  function FlagsFromMaildir(s: string): seq<Flag> {
    if s == [] then []
    else
      match ToFlag(s[0])
      case Some(f) => [f] + FlagsFromMaildir(s[1..])
      case None => FlagsFromMaildir(s[1..])
  }

  /** Translating in pieces is translating the whole: the empty list gives the
      empty string and concatenation is preserved, so no flag influences the
      letter of another. */
  lemma {:induction false} FlagsForMaildirAppend(a: seq<Flag>, b: seq<Flag>)
    ensures FlagsForMaildir(a + b) == FlagsForMaildir(a) + FlagsForMaildir(b)
  {
    if a == [] {
      assert a + b == b;
    } else {
      assert (a + b)[0] == a[0];
      assert (a + b)[1..] == a[1..] + b;
      FlagsForMaildirAppend(a[1..], b);
    }
  }

  /** Reading the letters back yields exactly the recognised flags in their
      reported order: the translation drops the others and neither sorts nor
      deduplicates. */
  lemma {:induction false} FlagsForMaildirReadsBack(flags: seq<Flag>)
    ensures FlagsFromMaildir(FlagsForMaildir(flags)) == RecognisedFlags(flags)
  {
    if flags != [] {
      FlagsForMaildirReadsBack(flags[1..]);
      var rest := FlagsForMaildir(flags[1..]);
      if HasMaildirCode(flags[0]) {
        var s := [FromFlag(flags[0]).value.AsChar()] + rest;
        assert s[0] == FromFlag(flags[0]).value.AsChar();
        assert s[1..] == rest;
        FromFlagRoundTrip(flags[0]);
      }
    }
  }

  /** Conversely, a string of Maildir letters is what the translation makes of
      the flags it reads as. */
  lemma {:induction false} FlagsFromMaildirWritesBack(s: string)
    requires forall j :: 0 <= j < |s| ==> s[j] in MAILDIR_CODES
    ensures FlagsForMaildir(FlagsFromMaildir(s)) == s
  {
    if s != [] {
      ToFlagRoundTrip(s[0]);
      FlagsFromMaildirWritesBack(s[1..]);
      var fs := [ToFlag(s[0]).value] + FlagsFromMaildir(s[1..]);
      assert fs[0] == ToFlag(s[0]).value;
      assert fs[1..] == FlagsFromMaildir(s[1..]);
      assert s == [s[0]] + s[1..];
    }
  }

  /** The recognised flag at position i contributes its letter at the position
      given by the number of letters produced before it. */
  lemma FlagsForMaildirPosition(flags: seq<Flag>, i: nat)
    requires i < |flags| && HasMaildirCode(flags[i])
    ensures |FlagsForMaildir(flags[..i])| < |FlagsForMaildir(flags)|
    ensures FlagsForMaildir(flags)[|FlagsForMaildir(flags[..i])|] == FromFlag(flags[i]).value.AsChar()
  {
    assert flags == flags[..i] + [flags[i]] + flags[i + 1..];
    FlagsForMaildirAppend(flags[..i] + [flags[i]], flags[i + 1..]);
    FlagsForMaildirAppend(flags[..i], [flags[i]]);
    assert [flags[i]][1..] == [];
  }

  /** The letters are in the ASCII order the Maildir convention asks for. */
  predicate AsciiOrdered(s: string) {
    forall i, j :: 0 <= i < j < |s| ==> s[i] <= s[j]
  }

  /** Worked cases: unknown flags are dropped and the order is kept, so
      [Seen, Flagged] gives "SF", which is not in ASCII order; repeated flags
      repeat their letter. */
  lemma FlagsForMaildirExamples()
    ensures FlagsForMaildir([Flagged, Seen, Custom("x")]) == "FS"
    ensures FlagsForMaildir([Seen, Flagged]) == "SF"
    ensures !AsciiOrdered(FlagsForMaildir([Seen, Flagged]))
    ensures FlagsForMaildir([Seen, Seen]) == "SS"
    ensures FlagsForMaildir([Recent, MayCreate]) == ""
  {
    var r := FlagsForMaildir([Seen, Flagged]);
    assert r == "SF";
    assert r[0] == 'S' && r[1] == 'F';
  }
}
