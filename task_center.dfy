/** The name under which the export task center saves a downloaded file:
    a base name, an underscore, a 14-digit `YYYYMMDDHHMMSS` stamp of the
    current time and, when there is one, the extension of the name the
    browser suggested. The clock is a parameter. */
module TaskCenter {
  import opened Cells
  import opened Numbers

  /** A clock reading `datetime.now()` can give: a four-digit year, a real
      month and day, and a second of the day. */
  predicate ValidNow(now: Timestamp) {
    && 1000 <= now.date.year <= 9999
    && ValidDate(now.date)
    && 0 <= now.second < 86400
  }

  /** `strftime("%Y%m%d%H%M%S")`. */
  function Stamp(now: Timestamp): string {
    ZeroPad(now.date.year, 4) + ZeroPad(now.date.month, 2) + ZeroPad(now.date.day, 2)
    + ZeroPad(now.second / 3600, 2) + ZeroPad(now.second / 60 % 60, 2) + ZeroPad(now.second % 60, 2)
  }

  predicate AllDigits(s: string) {
    forall i :: 0 <= i < |s| ==> IsDigit(s[i])
  }

  /** Reads a `YYYYMMDDHHMMSS` stamp back into the time it shows. */
  function ParseStamp(s: string): Timestamp
    requires |s| == 14 && AllDigits(s)
  {
    Timestamp(Date(ParseNat(s[..4]), ParseNat(s[4..6]), ParseNat(s[6..8])),
              ParseNat(s[8..10]) * 3600 + ParseNat(s[10..12]) * 60 + ParseNat(s[12..14]))
  }

  /** The stamp of a valid clock reading is 14 digits and reads back as
      that reading. */
  lemma StampRoundTrip(now: Timestamp)
    requires ValidNow(now)
    ensures |Stamp(now)| == 14 && AllDigits(Stamp(now))
    ensures ParseStamp(Stamp(now)) == now
  {
    var y := ZeroPad(now.date.year, 4);
    var mo := ZeroPad(now.date.month, 2);
    var d := ZeroPad(now.date.day, 2);
    var h := ZeroPad(now.second / 3600, 2);
    var mi := ZeroPad(now.second / 60 % 60, 2);
    var se := ZeroPad(now.second % 60, 2);
    assert Pow10(2) == 100 && Pow10(4) == 10000 by {
      assert Pow10(1) == 10;
      assert Pow10(3) == 1000;
    }
    ZeroPadDigits(now.date.year, 4);
    ZeroPadDigits(now.date.month, 2);
    ZeroPadDigits(now.date.day, 2);
    ZeroPadDigits(now.second / 3600, 2);
    ZeroPadDigits(now.second / 60 % 60, 2);
    ZeroPadDigits(now.second % 60, 2);
    ClockParts(now.second);
    StampPieces(y, mo, d, h, mi, se);
  }

  /** The six fields of a stamp, sliced back out of it. */
  lemma StampPieces(y: string, mo: string, d: string, h: string, mi: string, se: string)
    requires |y| == 4 && |mo| == 2 && |d| == 2 && |h| == 2 && |mi| == 2 && |se| == 2
    requires AllDigits(y) && AllDigits(mo) && AllDigits(d) && AllDigits(h) && AllDigits(mi) && AllDigits(se)
    ensures var s := y + mo + d + h + mi + se;
      && |s| == 14 && AllDigits(s)
      && s[..4] == y && s[4..6] == mo && s[6..8] == d
      && s[8..10] == h && s[10..12] == mi && s[12..14] == se
  {
    DigitsJoin(y, mo);
    DigitsJoin(y + mo, d);
    DigitsJoin(y + mo + d, h);
    DigitsJoin(y + mo + d + h, mi);
    DigitsJoin(y + mo + d + h + mi, se);
  }

  lemma DigitsJoin(a: string, b: string)
    requires AllDigits(a) && AllDigits(b)
    ensures AllDigits(a + b)
  {
    assert forall i :: |a| <= i < |a + b| ==> (a + b)[i] == b[i - |a|];
  }

  /** A second of the day splits into hours, minutes and seconds. */
  lemma ClockParts(second: int)
    requires 0 <= second < 86400
    ensures second / 3600 < 24 && second / 60 % 60 < 60 && second % 60 < 60
    ensures second / 3600 * 3600 + second / 60 % 60 * 60 + second % 60 == second
  {
    var m := second / 60;
    assert second == m * 60 + second % 60;
    assert m == m / 60 * 60 + m % 60;
    assert second / 3600 == m / 60;
  }

  /** `_generate_timestamped_filename` once the clock is read: the base
      name, `_` and the stamp `Stamp(now)`, which come back out of it. */
  function TimestampedFilename(base: string, stamp: string): (r: string)
    ensures |r| == |base| + 1 + |stamp|
    ensures r[..|base|] == base && r[|base|] == '_' && r[|base| + 1..] == stamp
  {
    base + "_" + stamp
  }

  /** The index of the last occurrence of `c` in `s`, if any. */
  function LastIndexOf(s: string, c: char): (r: Option<nat>)
    ensures r.None? <==> c !in s
    ensures r.Some? ==> r.value < |s| && s[r.value] == c && c !in s[r.value + 1..]
  {
    if s == [] then None
    else if s[|s| - 1] == c then Some(|s| - 1)
    else
      var r := LastIndexOf(s[..|s| - 1], c);
      assert r.Some? ==> s[r.value + 1..] == s[..|s| - 1][r.value + 1..] + [s[|s| - 1]];
      assert r.None? ==> s == s[..|s| - 1] + [s[|s| - 1]];
      r
  }

  /** `s.split(".")[-1]`: all of `s` when it has no dot. */
  function Extension(s: string): string {
    match LastIndexOf(s, '.')
    case None => s
    case Some(k) => s[k + 1..]
  }

  /** `s.rsplit(".", 1)[0]`: all of `s` when it has no dot. */
  function Stem(s: string): string {
    match LastIndexOf(s, '.')
    case None => s
    case Some(k) => s[..k]
  }

  /** The two pieces rejoin into the name, and the extension has no dot. */
  lemma StemExtension(s: string)
    requires '.' in s
    ensures Stem(s) + "." + Extension(s) == s
    ensures '.' !in Extension(s)
  {
    var k := LastIndexOf(s, '.').value;
    assert s == s[..k] + "." + s[k + 1..];
  }

  /** Appending a dot and a dotless extension makes that the extension. */
  lemma ExtensionOfJoin(a: string, e: string)
    requires '.' !in e
    ensures Extension(a + "." + e) == e && Stem(a + "." + e) == a
  {
    var s := a + "." + e;
    var k := LastIndexOf(s, '.').value;
    assert s[|a|] == '.';
    assert s[..|a|] == a && s[|a| + 1..] == e;
  }

  const DEFAULT_NAME := "downloaded_file"

  /** `if filename:`, an empty name counting as none. */
  predicate Named(filename: Option<string>) {
    filename.Some? && filename.value != ""
  }

  /** The final file name of `wait_for_export_task` and of its duplicate:
      `filename` is the optional name asked for, `suggested` the browser's
      suggested name and `stamp` the clock reading `Stamp(now)`. */
  function FinalFilename(filename: Option<string>, suggested: string, stamp: string): string {
    var chosen :=
      if Named(filename) then NamedFilename(filename.value, suggested, stamp)
      else if suggested != "" then SuggestedFilename(suggested, stamp)
      else TimestampedFilename(DEFAULT_NAME, stamp);
    if chosen == "" then TimestampedFilename(DEFAULT_NAME, stamp) else chosen
  }

  /** A name asked for: stamped, with the suggested name's extension when
      that has a dot. */
  function NamedFilename(name: string, suggested: string, stamp: string): string {
    if suggested != "" && '.' in suggested then TimestampedFilename(name, stamp) + "." + Extension(suggested)
    else TimestampedFilename(name, stamp)
  }

  /** No name asked for: the suggested name's stem stamped, with its
      extension when that is not empty. */
  function SuggestedFilename(suggested: string, stamp: string): string {
    var stem := if '.' in suggested then Stem(suggested) else suggested;
    var extension := if '.' in suggested then Extension(suggested) else "";
    if extension != "" then TimestampedFilename(stem, stamp) + "." + extension
    else TimestampedFilename(stem, stamp)
  }

  /** A name asked for and a suggested name with a dot: the stamped name
      asked for, keeping the suggested extension. */
  lemma NamedWithExtension(filename: Option<string>, suggested: string, stamp: string)
    requires Named(filename) && '.' in suggested
    ensures FinalFilename(filename, suggested, stamp) == filename.value + "_" + stamp + "." + Extension(suggested)
    ensures Extension(FinalFilename(filename, suggested, stamp)) == Extension(suggested)
  {
    StemExtension(suggested);
    ExtensionOfJoin(TimestampedFilename(filename.value, stamp), Extension(suggested));
  }

  /** A name asked for and a suggested name without a dot, or none: the
      stamped name asked for, with no extension. */
  lemma NamedWithoutExtension(filename: Option<string>, suggested: string, stamp: string)
    requires Named(filename) && '.' !in suggested
    ensures FinalFilename(filename, suggested, stamp) == filename.value + "_" + stamp
  {
  }

  /** No name asked for and a suggested name `stem.ext` with a dotless,
      non-empty extension (every name with a dot is one, by
      `StemExtension`, its extension being `Extension`): the stem stamped,
      then the extension; cutting out the underscore and the stamp gives
      back the suggested name. */
  lemma UnnamedWithExtension(filename: Option<string>, stem: string, ext: string, stamp: string)
    requires !Named(filename) && ext != "" && '.' !in ext
    ensures var r := FinalFilename(filename, stem + "." + ext, stamp); var n := |stem|;
      && r == stem + "_" + stamp + "." + ext
      && Extension(r) == ext
      && r[..n] + r[n + 1 + |stamp|..] == stem + "." + ext
  {
    var suggested := stem + "." + ext;
    var t := stem + "_" + stamp;
    assert suggested[|stem|] == '.';
    ExtensionOfJoin(stem, ext);
    assert SuggestedFilename(suggested, stamp) == t + "." + ext;
    ExtensionOfJoin(t, ext);
    CutStamp(stem, stamp, "." + ext);
    assert t + "." + ext == stem + "_" + stamp + ("." + ext);
  }

  /** Cutting `_` and the stamp out of a stamped name. */
  lemma CutStamp(a: string, stamp: string, b: string)
    ensures var r := a + "_" + stamp + b;
      |r| == |a + b| + 1 + |stamp| && r[..|a|] + r[|a| + 1 + |stamp|..] == a + b
  {
    var r := a + "_" + stamp + b;
    assert r[..|a|] == a;
    assert r[|a| + 1 + |stamp|..] == b;
  }

  /** No name asked for and a dotless suggested name: that name stamped,
      which it starts with. */
  lemma UnnamedWithoutDot(filename: Option<string>, suggested: string, stamp: string)
    requires !Named(filename) && suggested != "" && '.' !in suggested
    ensures var r := FinalFilename(filename, suggested, stamp);
      && r == suggested + "_" + stamp
      && r[..|suggested|] == suggested
  {
  }

  /** No name at all: the stamped default name. */
  lemma NoName(filename: Option<string>, stamp: string)
    requires !Named(filename)
    ensures FinalFilename(filename, "", stamp) == "downloaded_file_" + stamp
  {
  }

  /** A suggested name ending in a dot: with a name asked for the result
      ends in a dot, with an empty extension; without one the dot is
      dropped, since the empty extension counts as none. */
  lemma TrailingDot(filename: Option<string>, stem: string, stamp: string)
    requires Named(filename)
    ensures FinalFilename(filename, stem + ".", stamp) == filename.value + "_" + stamp + "."
    ensures FinalFilename(None, stem + ".", stamp) == stem + "_" + stamp
  {
    var s := stem + ".";
    assert s[|stem|] == '.';
    ExtensionOfJoin(stem, "");
    assert s == stem + "." + "";
  }

  /** The final name always carries `_` and the stamp, followed by nothing
      or by a dot and an extension: it is never empty, so the last
      fallback to the default name never fires. */
  lemma FinalFilenameStamped(filename: Option<string>, suggested: string, stamp: string)
    ensures var r := FinalFilename(filename, suggested, stamp);
      && r != ""
      && exists n :: StampAt(r, stamp, n)
  {
    var base, tail := FinalFilenameParts(filename, suggested, stamp);
    StampedAt(base, stamp, tail);
  }

  /** The final name is a base, `_`, the stamp and nothing or a dot and an
      extension. */
  lemma FinalFilenameParts(filename: Option<string>, suggested: string, stamp: string) returns (base: string, tail: string)
    ensures FinalFilename(filename, suggested, stamp) == base + ("_" + stamp) + tail
    ensures tail == "" || tail[0] == '.'
  {
    if Named(filename) {
      base, tail := NamedParts(filename.value, suggested, stamp);
    } else if suggested != "" {
      base, tail := SuggestedParts(suggested, stamp);
    } else {
      base, tail := DEFAULT_NAME, "";
      assert TimestampedFilename(DEFAULT_NAME, stamp) == base + ("_" + stamp) + tail;
    }
    assert |base + ("_" + stamp) + tail| >= 1;
  }

  lemma NamedParts(name: string, suggested: string, stamp: string) returns (base: string, tail: string)
    ensures NamedFilename(name, suggested, stamp) == base + ("_" + stamp) + tail
    ensures tail == "" || tail[0] == '.'
  {
    base, tail := name, "";
    if suggested != "" && '.' in suggested {
      tail := "." + Extension(suggested);
    }
  }

  lemma SuggestedParts(suggested: string, stamp: string) returns (base: string, tail: string)
    ensures SuggestedFilename(suggested, stamp) == base + ("_" + stamp) + tail
    ensures tail == "" || tail[0] == '.'
  {
    if '.' !in suggested {
      base, tail := suggested, "";
    } else if Extension(suggested) == "" {
      base, tail := Stem(suggested), "";
    } else {
      base, tail := Stem(suggested), "." + Extension(suggested);
    }
  }

  /** `_` and the stamp sit at `n` in `r`, followed by nothing or a dot. */
  predicate StampAt(r: string, stamp: string, n: int) {
    && 0 <= n && n + 1 + |stamp| <= |r| && r[n..n + 1 + |stamp|] == "_" + stamp
    && (n + 1 + |stamp| == |r| || r[n + 1 + |stamp|] == '.')
  }

  lemma StampedAt(base: string, stamp: string, tail: string)
    requires tail == "" || tail[0] == '.'
    ensures base + ("_" + stamp) + tail != "" && StampAt(base + ("_" + stamp) + tail, stamp, |base|)
  {
    var r := base + ("_" + stamp) + tail;
    assert r[|base|..|base| + 1 + |stamp|] == "_" + stamp;
  }
}
