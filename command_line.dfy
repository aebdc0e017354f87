/**
 * The command-line front end (main.py): the subject ID read out of the
 * subject argument, the output base name, and the output directory, renamed
 * with a time stamp when a directory of that name already exists.
 *
 * The file system and the clock are parameters: whether the directory exists
 * is a boolean, and the current time is a DateTime value.
 */
module CommandLine {

  datatype Option<T> = None | Some(value: T)

  /** Why the command line is rejected: a missing positional argument (an
      IndexError on sys.argv), or a subject with no "-" followed by a digit (an
      IndexError on the empty list of regular-expression matches). */
  datatype Error = MissingArgument(index: nat) | NoSubjectID

  datatype Result<T> = Ok(value: T) | Err(error: Error)

  /** What main hands to the session. */
  datatype Config = Config(
    subjectID: int,
    outputStr: string,
    outputDir: string,
    settingsFile: string,
    eyetrackerOn: bool)

  /** The current local time, as strftime reads it. */
  datatype DateTime = DateTime(year: int, month: int, day: int, hour: int, minute: int, second: int)

  predicate ValidDateTime(d: DateTime)
  {
    && 1000 <= d.year <= 9999 && 1 <= d.month <= 12 && 1 <= d.day <= 31
    && 0 <= d.hour < 24 && 0 <= d.minute < 60 && 0 <= d.second < 60
  }

  // ---------------------------------------------------------------------------
  // Decimal digits

  predicate IsDigit(c: char)
  {
    '0' <= c <= '9'
  }

  predicate AllDigits(s: string)
  {
    forall i :: 0 <= i < |s| ==> IsDigit(s[i])
  }

  function DigitChar(d: int): (c: char)
    requires 0 <= d < 10
    ensures IsDigit(c)
  {
    ('0' as int + d) as char
  }

  /** The value of a string of decimal digits, as int() reads it: leading
      zeros contribute nothing. */
  function DecimalValue(ds: string): nat
    requires AllDigits(ds)
  {
    if ds == [] then 0
    else DecimalValue(ds[..|ds| - 1]) * 10 + (ds[|ds| - 1] as int - '0' as int)
  }

  /** The decimal numeral of n, without leading zeros (str(n)). */
  function NatToString(n: nat): (s: string)
    ensures |s| >= 1 && AllDigits(s)
    ensures |s| > 1 ==> s[0] != '0'
  {
    if n < 10 then [DigitChar(n)] else NatToString(n / 10) + [DigitChar(n % 10)]
  }

  /** Reading back a numeral gives the number it was written from. */
  lemma {:induction false} DecimalValueOfNatToString(n: nat)
    ensures DecimalValue(NatToString(n)) == n
  {
    var s := NatToString(n);
    if n >= 10 {
      DecimalValueOfNatToString(n / 10);
      assert s[..|s| - 1] == NatToString(n / 10);
    }
  }

  /** Leading zeros do not change the value read. */
  lemma {:induction false} LeadingZeroDropped(ds: string)
    requires AllDigits(ds)
    ensures AllDigits("0" + ds) && DecimalValue("0" + ds) == DecimalValue(ds)
  {
    var zs := "0" + ds;
    if ds != [] {
      assert zs[..|zs| - 1] == "0" + ds[..|ds| - 1];
      LeadingZeroDropped(ds[..|ds| - 1]);
    }
  }

  // ---------------------------------------------------------------------------
  // The subject ID: the first match of (?<=-)\d+ read as an integer

  /** A match of (?<=-)\d+ can start at p: the character before p is "-" and
      the character at p is a digit. */
  predicate MatchStartsAt(s: string, p: int)
  {
    1 <= p < |s| && s[p - 1] == '-' && IsDigit(s[p])
  }

  /** The first position at or after `from` where a match starts. */
  function FindMatch(s: string, from: nat): (r: Option<nat>)
    ensures r.Some? ==> from <= r.value && MatchStartsAt(s, r.value)
    ensures r.Some? ==> forall q :: from <= q < r.value ==> !MatchStartsAt(s, q)
    ensures r.None? ==> forall q :: from <= q ==> !MatchStartsAt(s, q)
    decreases |s| - from
  {
    if from >= |s| then None
    else if MatchStartsAt(s, from) then Some(from)
    else FindMatch(s, from + 1)
  }

  /** The longest run of digits at the start of s (\d+ is greedy). */
  function DigitRun(s: string): (r: string)
    ensures r <= s && AllDigits(r)
    ensures |r| < |s| ==> !IsDigit(s[|r|])
  {
    if s == [] || !IsDigit(s[0]) then [] else [s[0]] + DigitRun(s[1..])
  }

  /** int(re.findall(r'(?<=-)\d+', subject)[0]): the value of the longest digit
      run that starts right after the first "-" followed by a digit, or None when
      there is no such "-" (the program then fails with an IndexError). */
  function ExtractSubjectID(subject: string): (r: Option<int>)
    ensures r.None? <==> forall p :: !MatchStartsAt(subject, p)
    ensures r.Some? ==> exists p ::
      && MatchStartsAt(subject, p)
      && (forall q :: q < p ==> !MatchStartsAt(subject, q))
      && r.value == DecimalValue(DigitRun(subject[p..]))
    ensures r.Some? ==> r.value >= 0
  {
    match FindMatch(subject, 0)
    case None => None
    case Some(p) => Some(DecimalValue(DigitRun(subject[p..])))
  }

  /** A run of digits followed by a non-digit (or by nothing) is read whole. */
  lemma {:induction false} DigitRunOfNumeral(ds: string, suffix: string)
    requires AllDigits(ds)
    requires suffix == [] || !IsDigit(suffix[0])
    ensures DigitRun(ds + suffix) == ds
  {
    if ds != [] {
      assert (ds + suffix)[1..] == ds[1..] + suffix;
      DigitRunOfNumeral(ds[1..], suffix);
    }
  }

  /** After a prefix with no match, a "-" followed by a digit is the first match. */
  lemma FirstMatchAfterPrefix(prefix: string, rest: string)
    requires forall p :: !MatchStartsAt(prefix, p)
    requires rest != [] && IsDigit(rest[0])
    ensures FindMatch(prefix + "-" + rest, 0) == Some(|prefix| + 1)
  {
    var s := prefix + "-" + rest;
    var p := |prefix| + 1;
    assert MatchStartsAt(s, p);
    forall q | 0 <= q < p
      ensures !MatchStartsAt(s, q)
    {
      if 1 <= q < |prefix| {
        assert s[q - 1] == prefix[q - 1] && s[q] == prefix[q];
        assert !MatchStartsAt(prefix, q);
      }
    }
  }

  /** Writing a subject as prefix + "-" + str(n) + suffix, where the prefix has
      no "-" followed by a digit and the suffix does not start with a digit,
      reads back n. */
  lemma ExtractSubjectIDRoundTrip(prefix: string, n: nat, suffix: string)
    requires forall p :: !MatchStartsAt(prefix, p)
    requires suffix == [] || !IsDigit(suffix[0])
    ensures ExtractSubjectID(prefix + "-" + NatToString(n) + suffix) == Some(n)
  {
    var num := NatToString(n);
    var s := prefix + "-" + num + suffix;
    assert s == prefix + "-" + (num + suffix);
    FirstMatchAfterPrefix(prefix, num + suffix);
    assert s[|prefix| + 1..] == num + suffix;
    DigitRunOfNumeral(num, suffix);
    DecimalValueOfNatToString(n);
  }

  /** "sub-01" gives subject 1; a subject with no "-" before a digit gives none. */
  lemma ExtractSubjectIDExamples()
    ensures ExtractSubjectID("sub-01") == Some(1)
    ensures ExtractSubjectID("sub01") == None
  {
    var s := "sub-01";
    assert MatchStartsAt(s, 4) && !MatchStartsAt(s, 3) && !MatchStartsAt(s, 2) && !MatchStartsAt(s, 1);
    assert FindMatch(s, 0) == Some(4);
    assert s[4..] == "01";
    assert DigitRun("01") == "01" by {
      DigitRunOfNumeral("01", []);
      assert "01" + [] == "01";
    }
    assert DecimalValue("01") == 1 by {
      LeadingZeroDropped("1");
      assert "0" + "1" == "01";
      assert "1"[..0] == [];
    }
    var t := "sub01";
    forall p ensures !MatchStartsAt(t, p) {
      if 1 <= p < |t| {
        assert t[p - 1] != '-';
      }
    }
  }

  // ---------------------------------------------------------------------------
  // Output names

  function Pow10(k: nat): nat
  {
    if k == 0 then 1 else 10 * Pow10(k - 1)
  }

  /** n written with exactly `width` digits, zero-padded on the left, as
      strftime writes each field of a time stamp. */
  function ZeroPad(n: nat, width: nat): (s: string)
    requires n < Pow10(width)
    ensures |s| == width && AllDigits(s)
    ensures DecimalValue(s) == n
  {
    if width == 0 then []
    else
      var s := ZeroPad(n / 10, width - 1) + [DigitChar(n % 10)];
      assert s[..|s| - 1] == ZeroPad(n / 10, width - 1);
      s
  }

  /** datetime.strftime('%Y%m%d%H%M%S'). */
  function Timestamp(d: DateTime): string
    requires ValidDateTime(d)
  {
    ZeroPad(d.year, 4) + ZeroPad(d.month, 2) + ZeroPad(d.day, 2)
      + ZeroPad(d.hour, 2) + ZeroPad(d.minute, 2) + ZeroPad(d.second, 2)
  }

  /** A time stamp is 14 digits, and each field reads back from its place. */
  lemma TimestampFields(d: DateTime)
    requires ValidDateTime(d)
    ensures var ts := Timestamp(d);
      && |ts| == 14 && AllDigits(ts)
      && DecimalValue(ts[0..4]) == d.year
      && DecimalValue(ts[4..6]) == d.month
      && DecimalValue(ts[6..8]) == d.day
      && DecimalValue(ts[8..10]) == d.hour
      && DecimalValue(ts[10..12]) == d.minute
      && DecimalValue(ts[12..14]) == d.second
  {
    var ts := Timestamp(d);
    assert ts[0..4] == ZeroPad(d.year, 4);
    assert ts[4..6] == ZeroPad(d.month, 2);
    assert ts[6..8] == ZeroPad(d.day, 2);
    assert ts[8..10] == ZeroPad(d.hour, 2);
    assert ts[10..12] == ZeroPad(d.minute, 2);
    assert ts[12..14] == ZeroPad(d.second, 2);
  }

  /** The output base name: subject + "_" + session. */
  function OutputStr(subject: string, sess: string): string
  {
    subject + "_" + sess
  }

  /** The log directory for a base name. */
  function LogDir(outputStr: string): string
  {
    "./output_data/" + outputStr + "_Logs"
  }

  /** The output directory: the log directory, or, when that already exists,
      the log directory's name with the current time stamp appended. */
  function ResolveOutputDir(outputStr: string, dirExists: bool, now: DateTime): (dir: string)
    requires ValidDateTime(now)
    ensures !dirExists ==> dir == LogDir(outputStr)
    ensures dirExists ==> LogDir(outputStr) < dir
    ensures dirExists ==> |dir| == |LogDir(outputStr)| + 14
    ensures dirExists ==> AllDigits(dir[|LogDir(outputStr)|..])
    ensures dirExists ==> dir == LogDir(outputStr) + Timestamp(now)
  {
    var outputDir := LogDir(outputStr);
    if dirExists then
      TimestampFields(now);
      assert (outputDir + Timestamp(now))[|outputDir|..] == Timestamp(now);
      outputDir + Timestamp(now)
    else outputDir
  }

  /** Lines 22-36 of main: read the subject and session arguments (argv[0] is
      the program), extract the subject ID and build the output names. */
  function ParseCommandLine(argv: seq<string>, dirExists: bool, now: DateTime): (r: Result<Config>)
    requires ValidDateTime(now)
    ensures |argv| < 3 ==> r == Err(MissingArgument(if |argv| < 2 then 1 else 2))
    ensures r.Ok? <==> |argv| >= 3 && exists p :: MatchStartsAt(argv[1], p)
    ensures r.Ok? ==>
      && Some(r.value.subjectID) == ExtractSubjectID(argv[1])
      && r.value.outputStr == argv[1] + "_" + argv[2]
      && r.value.outputDir == ResolveOutputDir(r.value.outputStr, dirExists, now)
      && r.value.settingsFile == "./settings.yml"
      && !r.value.eyetrackerOn
    ensures r.Err? && |argv| >= 3 ==> r.error == NoSubjectID
  {
    if |argv| < 2 then Err(MissingArgument(1))
    else if |argv| < 3 then Err(MissingArgument(2))
    else
      var subject, sess := argv[1], argv[2];
      match ExtractSubjectID(subject)
      case None => Err(NoSubjectID)
      case Some(subjectID) =>
        var outputStr := OutputStr(subject, sess);
        Ok(Config(subjectID, outputStr, ResolveOutputDir(outputStr, dirExists, now), "./settings.yml", false))
  }
}
