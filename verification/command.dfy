/** The command table of a field-shooting drill (`ui/Command.kt`): nine commands in
    declaration order, each with an audio clip, a duration in seconds and a colour.
    Duration -1 and audio -1 mark the commands that are announced but not timed. */
module Commands {

  /** The theme colours the table uses. */
  datatype ThemeColor = LightGray | LightGreen | MutedYellow | Red

  /** The audio clip of a command; `NoAudio` stands for the resource id -1. */
  datatype AudioClip =
    | NoAudio
    | TioSekunderKvar
    | Fardiga
    | Eld
    | EldUppHor
    | PatronUrProppaVapen
    | VisitationClip

  datatype Command =
    | Load
    | AllReady
    | TenSecondsLeft
    | Ready
    | Fire
    | CeaseFire
    | UnloadWeapon
    | Visitation
    | Mark
  {
    /** Position in the enum declaration (Kotlin `ordinal`). */
    function Ordinal(): nat {
      match this
      case Load => 0
      case AllReady => 1
      case TenSecondsLeft => 2
      case Ready => 3
      case Fire => 4
      case CeaseFire => 5
      case UnloadWeapon => 6
      case Visitation => 7
      case Mark => 8
    }

    /** Duration in whole seconds; -1 for untimed commands, 0 for the Fire placeholder. */
    function Duration(): int {
      match this
      case Load => -1
      case AllReady => -1
      case TenSecondsLeft => 7
      case Ready => 3
      case Fire => 0
      case CeaseFire => 3
      case UnloadWeapon => 4
      case Visitation => 2
      case Mark => -1
    }

    function Audio(): AudioClip {
      match this
      case Load => NoAudio
      case AllReady => NoAudio
      case TenSecondsLeft => TioSekunderKvar
      case Ready => Fardiga
      case Fire => Eld
      case CeaseFire => EldUppHor
      case UnloadWeapon => PatronUrProppaVapen
      case Visitation => VisitationClip
      case Mark => NoAudio
    }

    function Color(): ThemeColor {
      match this
      case Fire => LightGreen
      case CeaseFire => MutedYellow
      case UnloadWeapon => Red
      case _ => LightGray
    }
  }

  /** Kotlin `Command.entries`: every command, in declaration order. */
  function Entries(): (r: seq<Command>)
    ensures |r| == 9
    ensures forall i :: 0 <= i < |r| ==> r[i].Ordinal() == i
  {
    [Load, AllReady, TenSecondsLeft, Ready, Fire, CeaseFire, UnloadWeapon, Visitation, Mark]
  }

  /** Every command appears in `Entries()`, at the index of its ordinal. */
  lemma EveryCommandListed(c: Command)
    ensures c.Ordinal() < |Entries()| && Entries()[c.Ordinal()] == c
  {
  }

  /** The commands of `cs` whose duration is not negative, in order (Kotlin `filter`). */
  function TimedOf(cs: seq<Command>): seq<Command>
  {
    if |cs| == 0 then []
    else if cs[0].Duration() >= 0 then [cs[0]] + TimedOf(cs[1..])
    else TimedOf(cs[1..])
  }

  /** Filtering a concatenation filters each part. */
  lemma {:induction false} TimedOfAppend(a: seq<Command>, b: seq<Command>)
    ensures TimedOf(a + b) == TimedOf(a) + TimedOf(b)
    decreases |a|
  {
    if |a| == 0 {
      assert a + b == b;
    } else {
      assert (a + b)[0] == a[0] && (a + b)[1..] == a[1..] + b;
      TimedOfAppend(a[1..], b);
    }
  }

  /** A list of timed commands passes the filter unchanged. */
  lemma {:induction false} TimedOfAllTimed(s: seq<Command>)
    requires forall i :: 0 <= i < |s| ==> s[i].Duration() >= 0
    ensures TimedOf(s) == s
    decreases |s|
  {
    if |s| > 0 {
      TimedOfAllTimed(s[1..]);
      assert s == [s[0]] + s[1..];
    }
  }

  /** The filter drops Load and AllReady in front and Mark at the end. */
  lemma TimedOfEntries()
    ensures TimedOf(Entries()) == Entries()[2..8]
  {
    var e := Entries();
    assert e[8..] == [Mark] && [Mark][1..] == [];
    assert TimedOf(e[8..]) == [];
    TimedOfAllTimed(e[2..8]);
    TimedOfAppend(e[2..8], e[8..]);
    assert e[2..] == e[2..8] + e[8..];
    assert e[1..][1..] == e[2..] && e[1..] == e[1..][..1] + e[2..];
    assert e[1..][0] == AllReady;
  }

  /** `Command.entries.filter { it.duration >= 0 }`: the phases drawn on the dial. */
  function Timed(): (r: seq<Command>)
    ensures r == Entries()[2..8]
    ensures |r| == 6
    ensures forall i :: 0 <= i < |r| ==> r[i].Ordinal() == i + 2
  {
    TimedOfEntries();
    TimedOf(Entries())
  }

  /** The untimed commands are exactly those without audio, and exactly Load, AllReady, Mark. */
  function IsUntimed(c: Command): (b: bool)
    ensures b <==> c.Audio() == NoAudio
    ensures b <==> (c == Load || c == AllReady || c == Mark)
    ensures b <==> c.Duration() < 0
  {
    c.Duration() == -1
  }

  /** The sum of the fixed durations of the commands in `cs`, Fire counted as 0. */
  function FixedSeconds(cs: seq<Command>): int
  {
    if |cs| == 0 then 0 else cs[0].Duration() + FixedSeconds(cs[1..])
  }

  /** Fire is the only timed command whose table duration is a 0 placeholder. */
  lemma OnlyFireIsPlaceholder()
    ensures forall c :: c in Timed() && c.Duration() == 0 ==> c == Fire
  {
    assert Timed() == [TenSecondsLeft, Ready, Fire, CeaseFire, UnloadWeapon, Visitation];
  }

  /** The timed durations other than Fire's add up to 19 seconds. */
  lemma FixedTimedDurations()
    ensures FixedSeconds(Timed()) == 19
  {
    var t := [TenSecondsLeft, Ready, Fire, CeaseFire, UnloadWeapon, Visitation];
    assert Timed() == t;
    assert FixedSeconds(t) == 19;
  }
}
