/**
 * The name under which an exported meme is saved or shared: the first 19
 * characters of the current time's ISO-8601 form, with every `:` replaced by
 * `-`, between `tesla-meme-` and `.png`.
 */
module Timestamp {

  const FilePrefix := "tesla-meme-"
  const FileSuffix := ".png"

  /**
   * Shapes of strings: `#` stands for one decimal digit, any other character
   * for itself.
   */
  const IsoShape := "####-##-##T##:##:##.###Z"
  const StampShape := "####-##-##T##-##-##"
  const FileNameShape := FilePrefix + StampShape + FileSuffix  // tesla-meme-####-##-##T##-##-##.png

  predicate IsDigit(c: char)
  {
    '0' <= c <= '9'
  }

  predicate Matches(s: string, shape: string)
  {
    |s| == |shape| &&
    forall i :: 0 <= i < |s| ==> if shape[i] == '#' then IsDigit(s[i]) else s[i] == shape[i]
  }

  /** What `Date.prototype.toISOString` gives for a year from 0 to 9999. */
  predicate IsIsoTimestamp(s: string)
  {
    Matches(s, IsoShape)
  }

  /** `s.slice(0, n)`: the first `n` characters, or all of `s` when it is shorter. */
  function Prefix(s: string, n: nat): (r: string)
    ensures |r| == if |s| < n then |s| else n
    ensures r <= s
  {
    if |s| < n then s else s[..n]
  }

  /** `s.replace(/:/g, "-")`: every colon becomes a hyphen, everything else stays in place. */
  function ReplaceColons(s: string): (r: string)
    ensures |r| == |s|
    ensures forall i :: 0 <= i < |s| ==> r[i] == if s[i] == ':' then '-' else s[i]
    ensures ':' !in r
  {
    if s == [] then []
    else [if s[0] == ':' then '-' else s[0]] + ReplaceColons(s[1..])
  }

  /** The file name `exportMeme` derives from `new Date().toISOString()`. */
  function ExportFileName(iso: string): (name: string)
    ensures ':' !in name
    ensures |name| == |FilePrefix| + |Prefix(iso, 19)| + |FileSuffix|
    ensures name[..|FilePrefix|] == FilePrefix && name[|name| - |FileSuffix|..] == FileSuffix
    ensures forall i :: 0 <= i < |Prefix(iso, 19)| && iso[i] != ':' ==> name[|FilePrefix| + i] == iso[i]
  {
    var stamp := ReplaceColons(Prefix(iso, 19));
    var name := FilePrefix + stamp + FileSuffix;
    assert name[..|FilePrefix|] == FilePrefix;
    assert name[|name| - |FileSuffix|..] == FileSuffix;
    name
  }

  /** The time stamp part of a file name. */
  lemma StampOf(iso: string)
    ensures |ExportFileName(iso)| >= |FilePrefix| + |FileSuffix|
    ensures ExportFileName(iso)[|FilePrefix|..|ExportFileName(iso)| - |FileSuffix|] == ReplaceColons(Prefix(iso, 19))
  {
    var stamp := ReplaceColons(Prefix(iso, 19));
    assert ExportFileName(iso) == FilePrefix + stamp + FileSuffix;
  }

  /** Shapes concatenate: pieces that match their shapes match the joined shape. */
  lemma MatchesConcat(s: string, p: string, t: string, q: string)
    requires Matches(s, p) && Matches(t, q)
    ensures Matches(s + t, p + q)
  {
    forall i | 0 <= i < |s + t|
      ensures if (p + q)[i] == '#' then IsDigit((s + t)[i]) else (s + t)[i] == (p + q)[i]
    {
      if i >= |s| {
        assert (s + t)[i] == t[i - |s|] && (p + q)[i] == q[i - |p|];
      }
    }
  }

  /** Replacing colons in a string and in its shape keeps the one matching the other. */
  lemma ReplaceColonsKeepsShape(s: string, shape: string)
    requires Matches(s, shape)
    ensures Matches(ReplaceColons(s), ReplaceColons(shape))
  {
  }

  /** The stamp shape is the ISO shape's first 19 characters with the colons replaced. */
  lemma StampShapeFromIsoShape()
    ensures ReplaceColons(IsoShape[..19]) == StampShape
  {
  }

  /** A well-formed ISO time stamp yields a 34-character name of the documented shape. */
  lemma FileNameHasShape(iso: string)
    requires IsIsoTimestamp(iso)
    ensures Matches(ExportFileName(iso), FileNameShape)
    ensures |ExportFileName(iso)| == 34
  {
    var shape := IsoShape[..19];
    assert Matches(iso[..19], shape);
    ReplaceColonsKeepsShape(iso[..19], shape);
    StampShapeFromIsoShape();
    assert Matches(FilePrefix, FilePrefix) && Matches(FileSuffix, FileSuffix);
    MatchesConcat(FilePrefix, FilePrefix, ReplaceColons(iso[..19]), ReplaceColons(shape));
    MatchesConcat(FilePrefix + ReplaceColons(iso[..19]), FilePrefix + ReplaceColons(shape),
                  FileSuffix, FileSuffix);
  }

  /**
   * Two well-formed time stamps that differ anywhere in their first 19
   * characters (date, hours, minutes or seconds) give different file names.
   */
  lemma {:induction false} FileNamesDistinguishSeconds(a: string, b: string)
    requires IsIsoTimestamp(a) && IsIsoTimestamp(b)
    requires a[..19] != b[..19]
    ensures ExportFileName(a) != ExportFileName(b)
  {
    if ExportFileName(a) == ExportFileName(b) {
      StampOf(a);
      StampOf(b);
      var sa, sb := ReplaceColons(a[..19]), ReplaceColons(b[..19]);
      assert sa == sb;
      forall i | 0 <= i < 19 ensures a[i] == b[i] {
        assert sa[i] == sb[i];
        if IsoShape[i] == '#' {
          assert a[i] != ':' && b[i] != ':';
        }
      }
    }
  }

  /** The date and time of day `toISOString` prints, in UTC. */
  datatype DateTime = DateTime(year: nat, month: nat, day: nat,
                               hour: nat, minute: nat, second: nat, millisecond: nat)

  /** The range `toISOString` prints with a four-digit year. */
  predicate ValidDateTime(d: DateTime)
  {
    d.year <= 9999 && 1 <= d.month <= 12 && 1 <= d.day <= 31 &&
    d.hour <= 23 && d.minute <= 59 && d.second <= 59 && d.millisecond <= 999
  }

  function Pow10(w: nat): nat
  {
    if w == 0 then 1 else 10 * Pow10(w - 1)
  }

  /** The last `w` decimal digits of `n`, padded with leading zeros. */
  function PadDigits(n: nat, w: nat): (r: string)
    ensures |r| == w
    ensures forall i :: 0 <= i < w ==> IsDigit(r[i])
  {
    if w == 0 then "" else PadDigits(n / 10, w - 1) + ['0' + (n % 10) as char]
  }

  function DigitValue(c: char): nat
    requires IsDigit(c)
  {
    c as int - '0' as int
  }

  /** The number a string of decimal digits denotes. */
  function DigitsValue(s: string): nat
    requires forall i :: 0 <= i < |s| ==> IsDigit(s[i])
  {
    if s == [] then 0 else 10 * DigitsValue(s[..|s| - 1]) + DigitValue(s[|s| - 1])
  }

  /** Padding loses nothing when the number has at most `w` digits. */
  lemma {:induction false} PadDigitsRoundTrip(n: nat, w: nat)
    requires n < Pow10(w)
    ensures DigitsValue(PadDigits(n, w)) == n
  {
    if w > 0 {
      var r := PadDigits(n, w);
      PadDigitsRoundTrip(n / 10, w - 1);
      assert r[..w - 1] == PadDigits(n / 10, w - 1);
    }
  }

  /** A padded number matches a shape of as many digit places. */
  lemma PadDigitsMatches(n: nat, w: nat, shape: string)
    requires |shape| == w && forall i :: 0 <= i < w ==> shape[i] == '#'
    ensures Matches(PadDigits(n, w), shape)
  {
  }

  /** The ISO shape, piece by piece. */
  lemma IsoShapePieces()
    ensures "####-##-##" + "T" + "##:##:##" + "." + "###" + "Z" == IsoShape
  {
  }

  /** The `YYYY-MM-DD` part of `toISOString`. */
  function DatePart(d: DateTime): (r: string)
    ensures |r| == 10 && Matches(r, "####-##-##")
    ensures r[0..4] == PadDigits(d.year, 4) && r[5..7] == PadDigits(d.month, 2)
    ensures r[8..10] == PadDigits(d.day, 2)
  {
    var year, month, day := PadDigits(d.year, 4), PadDigits(d.month, 2), PadDigits(d.day, 2);
    PadDigitsMatches(d.year, 4, "####");
    PadDigitsMatches(d.month, 2, "##");
    PadDigitsMatches(d.day, 2, "##");
    MatchesConcat(year, "####", "-", "-");
    MatchesConcat(year + "-", "####" + "-", month, "##");
    MatchesConcat(year + "-" + month, "####" + "-" + "##", "-", "-");
    MatchesConcat(year + "-" + month + "-", "####" + "-" + "##" + "-", day, "##");
    assert "####" + "-" + "##" + "-" + "##" == "####-##-##";
    year + "-" + month + "-" + day
  }

  /** The `HH:mm:ss` part of `toISOString`. */
  function TimePart(d: DateTime): (r: string)
    ensures |r| == 8 && Matches(r, "##:##:##")
    ensures r[0..2] == PadDigits(d.hour, 2) && r[3..5] == PadDigits(d.minute, 2)
    ensures r[6..8] == PadDigits(d.second, 2)
  {
    var hour, minute, second := PadDigits(d.hour, 2), PadDigits(d.minute, 2), PadDigits(d.second, 2);
    PadDigitsMatches(d.hour, 2, "##");
    PadDigitsMatches(d.minute, 2, "##");
    PadDigitsMatches(d.second, 2, "##");
    MatchesConcat(hour, "##", ":", ":");
    MatchesConcat(hour + ":", "##" + ":", minute, "##");
    MatchesConcat(hour + ":" + minute, "##" + ":" + "##", ":", ":");
    MatchesConcat(hour + ":" + minute + ":", "##" + ":" + "##" + ":", second, "##");
    assert "##" + ":" + "##" + ":" + "##" == "##:##:##";
    hour + ":" + minute + ":" + second
  }

  /** `toISOString` for a date and time with a four-digit year. */
  function ToIsoString(d: DateTime): (s: string)
    requires ValidDateTime(d)
    ensures IsIsoTimestamp(s)
    ensures s[..10] == DatePart(d) && s[11..19] == TimePart(d)
    ensures s[20..23] == PadDigits(d.millisecond, 3)
  {
    var date, time, millis := DatePart(d), TimePart(d), PadDigits(d.millisecond, 3);
    PadDigitsMatches(d.millisecond, 3, "###");
    var ds, ts := "####-##-##", "##:##:##";
    MatchesConcat(date, ds, "T", "T");
    MatchesConcat(date + "T", ds + "T", time, ts);
    MatchesConcat(date + "T" + time, ds + "T" + ts, ".", ".");
    MatchesConcat(date + "T" + time + ".", ds + "T" + ts + ".", millis, "###");
    MatchesConcat(date + "T" + time + "." + millis, ds + "T" + ts + "." + "###", "Z", "Z");
    IsoShapePieces();
    date + "T" + time + "." + millis + "Z"
  }

  /** Two numbers of at most `w` digits with the same padded form are equal. */
  lemma PadDigitsInjective(n: nat, m: nat, w: nat)
    requires n < Pow10(w) && m < Pow10(w)
    requires PadDigits(n, w) == PadDigits(m, w)
    ensures n == m
  {
    PadDigitsRoundTrip(n, w);
    PadDigitsRoundTrip(m, w);
  }

  /** Two time stamps with the same first 19 characters print the same date and second. */
  lemma SameStampSameSecond(d: DateTime, e: DateTime)
    requires ValidDateTime(d) && ValidDateTime(e)
    requires ToIsoString(d)[..19] == ToIsoString(e)[..19]
    ensures (d.year, d.month, d.day, d.hour, d.minute, d.second)
         == (e.year, e.month, e.day, e.hour, e.minute, e.second)
  {
    var s, t := ToIsoString(d), ToIsoString(e);
    assert DatePart(d) == s[..19][..10] == t[..19][..10] == DatePart(e);
    assert TimePart(d) == s[..19][11..19] == t[..19][11..19] == TimePart(e);
    PadDigitsInjective(d.year, e.year, 4);
    PadDigitsInjective(d.month, e.month, 2);
    PadDigitsInjective(d.day, e.day, 2);
    PadDigitsInjective(d.hour, e.hour, 2);
    PadDigitsInjective(d.minute, e.minute, 2);
    PadDigitsInjective(d.second, e.second, 2);
  }

  /**
   * Two exports at instants that differ in their date or time to the second
   * get different file names.
   */
  lemma DistinctSecondsDistinctNames(d: DateTime, e: DateTime)
    requires ValidDateTime(d) && ValidDateTime(e)
    requires (d.year, d.month, d.day, d.hour, d.minute, d.second)
          != (e.year, e.month, e.day, e.hour, e.minute, e.second)
    ensures ExportFileName(ToIsoString(d)) != ExportFileName(ToIsoString(e))
  {
    if ToIsoString(d)[..19] == ToIsoString(e)[..19] {
      SameStampSameSecond(d, e);
    } else {
      FileNamesDistinguishSeconds(ToIsoString(d), ToIsoString(e));
    }
  }
}
