/** The `m:ss` clock text shown for the round countdown and for track
    durations: whole minutes, a colon, and the remaining seconds padded to two
    digits. The same three lines appear in five components (the round screen,
    the playlist editor, the track-selection screen, the music search and the
    host's song list); they are defined once, here. */
module MinSec {
  import opened JsText
  import Uri
  import opened Wrappers

  /** `${Math.floor(s / 60)}:${(s % 60).toString().padStart(2, '0')}`. */
  function FormatMinSec(totalSeconds: nat): string {
    NatToString(totalSeconds / 60) + ":" + PadStart2(NatToString(totalSeconds % 60))
  }

  /** `formatTime(seconds)` of the round countdown. */
  function FormatTime(seconds: nat): string {
    FormatMinSec(seconds)
  }

  /** `formatDuration(ms)`: the whole seconds of a duration in milliseconds. */
  function FormatDuration(ms: nat): string {
    FormatMinSec(ms / 1000)
  }

  /** Reads `m:ss` back: a decimal minute count, a colon, and exactly two digits
      below 60. */
  function ParseMinSec(s: string): Option<nat> {
    match Uri.IndexOf(s, ':')
    case None => None
    case Some(i) =>
      var m, ss := s[..i], s[i + 1..];
      if m != [] && IsDigits(m) && |ss| == 2 && IsDigits(ss) && DigitsValue(ss) < 60
      then Some(60 * DigitsValue(m) + DigitsValue(ss))
      else None
  }

  /** The seconds field: two digits whose value is the remainder below 60. */
  lemma SecondsField(r: nat)
    requires r < 60
    ensures var p := PadStart2(NatToString(r)); |p| == 2 && IsDigits(p) && DigitsValue(p) == r
  {
    var n := NatToString(r);
    var p := PadStart2(n);
    NatToStringRoundTrip(r);
    if r < 10 {
      assert p == ['0'] + n;
      assert p[..1] == "0";
    }
  }

  /** The text is well formed and reads back as the number of seconds it was
      made from: `60 * minutes + seconds == totalSeconds`. */
  lemma {:induction false} FormatParseRoundTrip(totalSeconds: nat)
    ensures ParseMinSec(FormatMinSec(totalSeconds)) == Some(totalSeconds)
  {
    var m := NatToString(totalSeconds / 60);
    var p := PadStart2(NatToString(totalSeconds % 60));
    var s := FormatMinSec(totalSeconds);
    SecondsField(totalSeconds % 60);
    NatToStringRoundTrip(totalSeconds / 60);
    Uri.IndexOfAt(s, ':', |m|);
    assert s[..|m|] == m;
    assert s[|m| + 1..] == p;
    assert ParseMinSec(s) == Some(60 * (totalSeconds / 60) + totalSeconds % 60);
  }

  /** Different numbers of seconds never show the same text. */
  lemma FormatInjective(s: nat, t: nat)
    requires FormatMinSec(s) == FormatMinSec(t)
    ensures s == t
  {
    FormatParseRoundTrip(s);
    FormatParseRoundTrip(t);
  }

  /** A duration shows the whole seconds it lasts: every duration within the
      same second shows the same text, and the text reads back as that second. */
  lemma DurationWholeSeconds(ms: nat)
    ensures ParseMinSec(FormatDuration(ms)) == Some(ms / 1000)
    ensures FormatDuration(ms) == FormatDuration(ms / 1000 * 1000)
  {
    FormatParseRoundTrip(ms / 1000);
    assert ms / 1000 * 1000 / 1000 == ms / 1000;
  }
}
