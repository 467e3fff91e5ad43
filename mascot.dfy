/** The pet of web/src/components/MascotTamagotchi.jsx: three stats that decay and
    are restored by feeding, cleaning and playing, death and revival, moods driven
    by the stats and by clicks, an evolution level, a triple-click dance and a
    Konami-code detector that makes the pet appear.
    Timers are left out: each interval or timeout is a method the environment calls,
    and the effects a change triggers run inside the method that made the change. */
module Mascot {

  datatype Mood = Happy | Neutral | Sad | VerySad | Sleepy | Excited

  const MAX_STAT := 100

  /** The click effect: the mood for a running click count. */
  function ClickMood(clicks: int): (m: Mood)
    ensures clicks > 20 ==> m == Sleepy
    ensures 15 < clicks <= 20 ==> m == Excited
    ensures 10 < clicks <= 15 ==> m == Sad
    ensures 5 < clicks <= 10 ==> m == Neutral
    ensures clicks <= 5 ==> m == Happy
  {
    if clicks > 20 then Sleepy
    else if clicks > 15 then Excited
    else if clicks > 10 then Sad
    else if clicks > 5 then Neutral
    else Happy
  }

  /** How many of the three stats are at most `limit`. */
  function CountAtMost(hunger: int, cleanliness: int, boredom: int, limit: int): (n: nat)
    ensures n <= 3
    ensures n == 0 <==> hunger > limit && cleanliness > limit && boredom > limit
    ensures n == 3 <==> hunger <= limit && cleanliness <= limit && boredom <= limit
  {
    (if hunger <= limit then 1 else 0) + (if cleanliness <= limit then 1 else 0) + (if boredom <= limit then 1 else 0)
  }

  /** The stats effect: two low stats (at most 20) make the pet very sad, one low or
      two medium (at most 50) sad, one medium neutral, none happy. */
  function StatMood(hunger: int, cleanliness: int, boredom: int): (m: Mood)
    ensures m in {Happy, Neutral, Sad, VerySad}
    ensures m == VerySad <==> CountAtMost(hunger, cleanliness, boredom, 20) >= 2
    ensures m == Sad <==>
      CountAtMost(hunger, cleanliness, boredom, 20) == 1
      || (CountAtMost(hunger, cleanliness, boredom, 20) == 0 && CountAtMost(hunger, cleanliness, boredom, 50) >= 2)
    ensures m == Neutral <==>
      CountAtMost(hunger, cleanliness, boredom, 20) == 0 && CountAtMost(hunger, cleanliness, boredom, 50) == 1
    ensures m == Happy <==> hunger > 50 && cleanliness > 50 && boredom > 50
  {
    var low := CountAtMost(hunger, cleanliness, boredom, 20);
    var medium := CountAtMost(hunger, cleanliness, boredom, 50);
    if low >= 2 then VerySad
    else if low >= 1 then Sad
    else if medium >= 2 then Sad
    else if medium >= 1 then Neutral
    else Happy
  }

  /** Cheerfulness of a stat mood, from very sad (0) to happy (3). */
  function Cheer(m: Mood): nat {
    match m
    case VerySad => 0
    case Sad => 1
    case Neutral => 2
    case _ => 3
  }

  /** Raising any stat never makes the stat mood gloomier. */
  lemma StatMoodIsMonotone(h1: int, c1: int, b1: int, h2: int, c2: int, b2: int)
    requires h1 <= h2 && c1 <= c2 && b1 <= b2
    ensures Cheer(StatMood(h1, c1, b1)) <= Cheer(StatMood(h2, c2, b2))
  {
    assert CountAtMost(h2, c2, b2, 20) <= CountAtMost(h1, c1, b1, 20);
    assert CountAtMost(h2, c2, b2, 50) <= CountAtMost(h1, c1, b1, 50);
  }

  /** `Math.max(0, stat - amount)`. */
  function Decayed(stat: int, amount: nat): (r: int)
    ensures r >= 0 && (stat >= 0 ==> r <= stat)
    ensures stat >= amount ==> r == stat - amount
    ensures stat <= amount ==> r == 0
  {
    if stat - amount > 0 then stat - amount else 0
  }

  /** `Math.min(100, stat + amount)`. */
  function Raised(stat: int, amount: nat): (r: int)
    ensures r <= MAX_STAT && (stat <= MAX_STAT ==> r >= stat)
    ensures stat + amount <= MAX_STAT ==> r == stat + amount
    ensures stat + amount >= MAX_STAT ==> r == MAX_STAT
  {
    if stat + amount < MAX_STAT then stat + amount else MAX_STAT
  }

  // ---------------------------------------------------------------- evolution

  /** The evolution effect as written: the `> 300` test comes first, so the `> 600`
      branch can never be taken. */
  function EvolutionAsWritten(level: int, aliveTime: int): (r: int)
    ensures aliveTime > 300 ==> r == 1
    ensures aliveTime <= 300 ==> r == level
  {
    if aliveTime > 300 then 1
    else if aliveTime > 600 then 2
    else level
  }

  /** Level 2 is unreachable: starting below 2, the effect as written never yields it,
      even long after 600 seconds. */
  lemma EvolutionAsWrittenNeverReachesTwo(level: int, aliveTime: int)
    requires level < 2
    ensures EvolutionAsWritten(level, aliveTime) < 2
    ensures EvolutionAsWritten(0, 601) == 1
  {
  }

  /** The level the alive time has earned: 2 after 600 seconds, 1 after 300. */
  function LevelFor(aliveTime: nat): (r: nat)
    ensures r <= 2
    ensures r == 2 <==> aliveTime > 600
    ensures r == 1 <==> 300 < aliveTime <= 600
  {
    if aliveTime > 600 then 2 else if aliveTime > 300 then 1 else 0
  }

  /** The evolution effect with its tests in the intended order. */
  function Evolution(level: nat, aliveTime: nat): (r: nat)
    ensures aliveTime > 300 ==> r == LevelFor(aliveTime)
    ensures aliveTime <= 300 ==> r == level
  {
    if aliveTime > 600 then 2
    else if aliveTime > 300 then 1
    else level
  }

  /** Counting up one second at a time from a revival, the corrected effect keeps the
      level equal to the level earned, so both levels are reached. */
  lemma EvolutionTracksAliveTime(level: nat, aliveTime: nat)
    requires level == LevelFor(aliveTime)
    ensures Evolution(level, aliveTime + 1) == LevelFor(aliveTime + 1)
  {
  }

  // ---------------------------------------------------------------- Konami code

  const KONAMI: seq<string> :=
    ["ArrowUp", "ArrowUp", "ArrowDown", "ArrowDown", "ArrowLeft", "ArrowRight", "ArrowLeft", "ArrowRight", "b", "a"]

  /** The detector as written: the index advances on the expected key and drops to 0 on
      any other key, without testing that key against the start of the code. */
  function KonamiStepAsWritten(index: nat, key: string): (r: (nat, bool))
    requires index < |KONAMI|
    ensures r.0 < |KONAMI|
    ensures key != KONAMI[index] ==> r == (0, false)
    ensures key == KONAMI[index] && index + 1 < |KONAMI| ==> r == (index + 1, false)
    ensures key == KONAMI[index] && index + 1 == |KONAMI| ==> r == (0, true)
  {
    if key == KONAMI[index] then
      if index + 1 == |KONAMI| then (0, true) else (index + 1, false)
    else (0, false)
  }

  /** Whether each key of `keys` made the detector as written fire. */
  function RunAsWritten(index: nat, keys: seq<string>): (hits: seq<bool>)
    requires index < |KONAMI|
    ensures |hits| == |keys|
    decreases |keys|
  {
    if keys == [] then []
    else
      var (next, hit) := KonamiStepAsWritten(index, keys[0]);
      [hit] + RunAsWritten(next, keys[1..])
  }

  /** One stray "ArrowUp" before the code: the third "ArrowUp" resets the index and the
      code that follows is never recognised. */
  lemma KonamiAsWrittenMissesCode()
    ensures true !in RunAsWritten(0, ["ArrowUp"] + KONAMI)
  {
    var tail := KONAMI[2..];
    OnlyTwoUps();
    AllMismatchStayAtZero(tail);
    StrayUpResets();
    var third := ["ArrowUp"] + tail;
    assert RunAsWritten(2, third) == [false] + RunAsWritten(0, tail) by {
      assert third[1..] == tail;
    }
    var second := ["ArrowUp"] + third;
    assert RunAsWritten(1, second) == [false] + RunAsWritten(2, third) by {
      assert second[1..] == third;
    }
    var keys := ["ArrowUp"] + second;
    assert RunAsWritten(0, keys) == [false] + RunAsWritten(1, second) by {
      assert keys[1..] == second;
    }
    assert keys == ["ArrowUp"] + KONAMI;
  }

  /** The code opens with exactly two "ArrowUp" keys. */
  lemma OnlyTwoUps()
    ensures KONAMI[0] == "ArrowUp" && KONAMI[1] == "ArrowUp"
    ensures forall i :: 0 <= i < |KONAMI[2..]| ==> KONAMI[2..][i] != "ArrowUp"
  {
  }

  /** A third "ArrowUp" is not the expected key and resets the index as written. */
  lemma StrayUpResets()
    ensures KonamiStepAsWritten(0, "ArrowUp") == (1, false)
    ensures KonamiStepAsWritten(1, "ArrowUp") == (2, false)
    ensures KonamiStepAsWritten(2, "ArrowUp") == (0, false)
  {
  }

  /** From index 0, keys that are never "ArrowUp" never fire the detector as written. */
  lemma {:induction false} AllMismatchStayAtZero(keys: seq<string>)
    requires forall i :: 0 <= i < |keys| ==> keys[i] != "ArrowUp"
    ensures true !in RunAsWritten(0, keys)
    decreases |keys|
  {
    if keys != [] {
      AllMismatchStayAtZero(keys[1..]);
    }
  }

  /** The last (at most) ten keys: `lastKeys.slice(-10)`. */
  function Last10(keys: seq<string>): (r: seq<string>)
    ensures |r| <= 10
    ensures |keys| <= 10 ==> r == keys
    ensures |keys| > 10 ==> r == keys[|keys| - 10..]
  {
    if |keys| <= 10 then keys else keys[|keys| - 10..]
  }

  /** The intended detector for a ten-key `code`: the source keeps the window of the
      last ten keys; the code is recognised when that window is the code, and the window
      then starts afresh. */
  function DetectStep(code: seq<string>, window: seq<string>, key: string): (r: (seq<string>, bool))
    ensures r.1 <==> Last10(window + [key]) == code
    ensures r.1 ==> r.0 == []
    ensures !r.1 ==> r.0 == Last10(window + [key])
  {
    var pushed := Last10(window + [key]);
    if pushed == code then ([], true) else (pushed, false)
  }

  /** Whether each key of `keys` made the intended detector fire. */
  function Run(code: seq<string>, window: seq<string>, keys: seq<string>): (hits: seq<bool>)
    ensures |hits| == |keys|
    decreases |keys|
  {
    if keys == [] then []
    else
      var (next, hit) := DetectStep(code, window, keys[0]);
      [hit] + Run(code, next, keys[1..])
  }

  lemma Last10OfLast10(keys: seq<string>, key: string)
    ensures Last10(Last10(keys) + [key]) == Last10(keys + [key])
  {
  }

  /** A ten-key code whose last key occurs nowhere earlier in it. */
  predicate LastKeyIsUnique(code: seq<string>) {
    |code| == 10 && forall j :: 0 <= j < 9 ==> code[j] != code[9]
  }

  /** Only the last key of the Konami code is "a". */
  lemma KonamiLastKeyIsUnique()
    ensures LastKeyIsUnique(KONAMI)
  {
  }

  /** One key of the code, typed after `earlier` and the code's first `i` keys. */
  lemma StepOnCode(code: seq<string>, earlier: seq<string>, i: nat)
    requires LastKeyIsUnique(code) && i < |code|
    ensures i + 1 < |code| ==>
      DetectStep(code, Last10(earlier + code[..i]), code[i]) == (Last10(earlier + code[..i + 1]), false)
    ensures i + 1 == |code| ==> DetectStep(code, Last10(earlier + code[..i]), code[i]) == ([], true)
  {
    Last10OfLast10(earlier + code[..i], code[i]);
    assert earlier + code[..i] + [code[i]] == earlier + code[..i + 1];
    var pushed := Last10(earlier + code[..i + 1]);
    if i + 1 < |code| {
      // The last key pushed is not the code's last key, so the window is not yet the code.
      assert pushed[|pushed| - 1] == code[i] != code[9];
    } else {
      assert code[..i + 1] == code;
    }
  }

  /** `n` keys of which only the last fired the detector. */
  predicate FiresOnLastOnly(hits: seq<bool>, n: nat) {
    n >= 1 && |hits| == n && hits[n - 1] && forall j :: 0 <= j < n - 1 ==> !hits[j]
  }

  lemma NoHitFirst(hits: seq<bool>, n: nat)
    requires FiresOnLastOnly(hits, n)
    ensures FiresOnLastOnly([false] + hits, n + 1)
  {
    var longer := [false] + hits;
    assert forall j :: 1 <= j < n + 1 ==> longer[j] == hits[j - 1];
  }

  /** `Run` unfolded once. */
  lemma RunStep(code: seq<string>, window: seq<string>, keys: seq<string>)
    requires keys != []
    ensures var step := DetectStep(code, window, keys[0]);
      Run(code, window, keys) == [step.1] + Run(code, step.0, keys[1..])
  {
  }

  lemma {:induction false} RecognisedFrom(code: seq<string>, earlier: seq<string>, i: nat)
    requires LastKeyIsUnique(code) && i < |code|
    ensures FiresOnLastOnly(Run(code, Last10(earlier + code[..i]), code[i..]), 10 - i)
    decreases |code| - i
  {
    var w := Last10(earlier + code[..i]);
    var rest := code[i..];
    RunStep(code, w, rest);
    assert rest[0] == code[i] && rest[1..] == code[i + 1..];
    StepOnCode(code, earlier, i);
    if i + 1 < |code| {
      RecognisedFrom(code, earlier, i + 1);
      NoHitFirst(Run(code, Last10(earlier + code[..i + 1]), code[i + 1..]), 9 - i);
    } else {
      assert code[i + 1..] == [];
    }
  }

  /** Typing such a code is recognised on its last key, and not before, whatever was typed
      earlier; this is the case of the Konami code. */
  lemma CodeAlwaysRecognised(code: seq<string>, window: seq<string>)
    requires LastKeyIsUnique(code) && |window| <= 10
    ensures FiresOnLastOnly(Run(code, window, code), 10)
  {
    assert window + code[..0] == window;
    assert code[0..] == code;
    RecognisedFrom(code, window, 0);
  }

  // ---------------------------------------------------------------- the pet

  class Pet {
    var hunger: int
    var cleanliness: int
    var boredom: int
    var mood: Mood
    var isDead: bool
    var aliveTime: nat
    var level: nat
    var clicks: nat
    var clickCount: nat
    var isDancing: bool
    var visible: bool
    var lastKeys: seq<string>

    /** Stats stay within [0, 100]; the pet is dead exactly when all three are exhausted;
        the level is the one the alive time earned; at most two clicks are pending and
        the key window holds at most ten keys. */
    ghost predicate Valid()
      reads this
    {
      && 0 <= hunger <= MAX_STAT && 0 <= cleanliness <= MAX_STAT && 0 <= boredom <= MAX_STAT
      && (isDead <==> hunger == 0 && cleanliness == 0 && boredom == 0)
      && level == LevelFor(aliveTime)
      && clickCount < 3
      && |lastKeys| <= 10
    }

    constructor ()
      ensures hunger == MAX_STAT && cleanliness == MAX_STAT && boredom == MAX_STAT
      ensures mood == Happy && !isDead && aliveTime == 0 && level == 0
      ensures clicks == 0 && clickCount == 0 && !isDancing && !visible && lastKeys == []
      ensures Valid()
    {
      hunger, cleanliness, boredom := MAX_STAT, MAX_STAT, MAX_STAT;
      mood, isDead, aliveTime, level := Happy, false, 0, 0;
      clicks, clickCount, isDancing, visible, lastKeys := 0, 0, false, false, [];
    }

    /** The death check and the stats mood effect after the stats changed: a living pet
        takes the mood of its stats and dies when all three are exhausted. */
    method StatsChanged()
      requires 0 <= hunger <= MAX_STAT && 0 <= cleanliness <= MAX_STAT && 0 <= boredom <= MAX_STAT
      modifies this`isDead, this`mood
      ensures isDead == (old(isDead) || (hunger == 0 && cleanliness == 0 && boredom == 0))
      ensures !old(isDead) ==> mood == StatMood(hunger, cleanliness, boredom)
      ensures old(isDead) ==> mood == old(mood)
    {
      if !isDead {
        mood := StatMood(hunger, cleanliness, boredom);
      }
      if hunger <= 0 && cleanliness <= 0 && boredom <= 0 {
        isDead := true;
      }
    }

    /** The 15-second decay: hunger drops by 5, cleanliness and boredom by 3, never
        below 0. A living pet always has a stat above 0, so some stat changes and the
        effects run; a dead pet's stats stay at 0 and nothing runs. */
    method DecayTick()
      requires Valid()
      modifies this`hunger, this`cleanliness, this`boredom, this`isDead, this`mood
      ensures hunger == Decayed(old(hunger), 5) && cleanliness == Decayed(old(cleanliness), 3)
      ensures boredom == Decayed(old(boredom), 3)
      ensures isDead == (hunger == 0 && cleanliness == 0 && boredom == 0)
      ensures !old(isDead) ==> mood == StatMood(hunger, cleanliness, boredom)
      ensures old(isDead) ==> mood == old(mood)
      ensures Valid()
    {
      hunger, cleanliness, boredom := Decayed(hunger, 5), Decayed(cleanliness, 3), Decayed(boredom, 3);
      StatsChanged();
    }

    /** `feed`, offered only while the pet is alive. React runs the death and mood
        effects only when a stat really changed: feeding a pet whose hunger and boredom
        are already full keeps its mood (a click or double-click mood, say). */
    method Feed()
      requires Valid() && !isDead
      modifies this`hunger, this`boredom, this`isDead, this`mood
      ensures hunger == Raised(old(hunger), 20) && boredom == Raised(old(boredom), 10)
      ensures !isDead
      ensures (hunger, boredom) != (old(hunger), old(boredom)) ==> mood == StatMood(hunger, cleanliness, boredom)
      ensures (hunger, boredom) == (old(hunger), old(boredom)) ==> mood == old(mood)
      ensures Valid()
    {
      var before := (hunger, boredom);
      hunger, boredom := Raised(hunger, 20), Raised(boredom, 10);
      if (hunger, boredom) != before {
        StatsChanged();
      }
    }

    /** `clean`, offered only while the pet is alive; a pet already clean keeps its mood. */
    method Clean()
      requires Valid() && !isDead
      modifies this`cleanliness, this`isDead, this`mood
      ensures cleanliness == MAX_STAT
      ensures !isDead
      ensures old(cleanliness) != MAX_STAT ==> mood == StatMood(hunger, cleanliness, boredom)
      ensures old(cleanliness) == MAX_STAT ==> mood == old(mood)
      ensures Valid()
    {
      if cleanliness != MAX_STAT {
        cleanliness := MAX_STAT;
        StatsChanged();
      }
    }

    /** `play`, offered only while the pet is alive; a pet with full boredom keeps its mood. */
    method Play()
      requires Valid() && !isDead
      modifies this`boredom, this`isDead, this`mood
      ensures boredom == Raised(old(boredom), 20)
      ensures !isDead
      ensures boredom != old(boredom) ==> mood == StatMood(hunger, cleanliness, boredom)
      ensures boredom == old(boredom) ==> mood == old(mood)
      ensures Valid()
    {
      var before := boredom;
      boredom := Raised(boredom, 20);
      if boredom != before {
        StatsChanged();
      }
    }

    /** The revive button, offered only once the pet is dead: full stats, alive time and
        level back to 0, and the stats mood of full stats. */
    method Revive()
      requires Valid() && isDead
      modifies this`hunger, this`cleanliness, this`boredom, this`isDead, this`mood, this`aliveTime, this`level
      ensures hunger == MAX_STAT && cleanliness == MAX_STAT && boredom == MAX_STAT
      ensures !isDead && aliveTime == 0 && level == 0 && mood == Happy
      ensures Valid()
    {
      isDead := false;
      hunger, cleanliness, boredom := MAX_STAT, MAX_STAT, MAX_STAT;
      aliveTime, level := 0, 0;
      StatsChanged();
    }

    /** The one-second alive counter, running only while the pet lives, and the
        (corrected) evolution effect it triggers. */
    method AliveTick()
      requires Valid() && !isDead
      modifies this`aliveTime, this`level
      ensures aliveTime == old(aliveTime) + 1
      ensures level == LevelFor(aliveTime)
      ensures Valid()
    {
      EvolutionTracksAliveTime(level, aliveTime);
      aliveTime := aliveTime + 1;
      level := Evolution(level, aliveTime);
    }

    /** `handleClick`: the click mood follows the new count, and the third click in a
        row starts the dance and restarts the count. */
    method Click()
      requires Valid()
      modifies this`clicks, this`mood, this`clickCount, this`isDancing
      ensures clicks == old(clicks) + 1 && mood == ClickMood(clicks)
      ensures old(clickCount) == 2 ==> isDancing && clickCount == 0
      ensures old(clickCount) < 2 ==> isDancing == old(isDancing) && clickCount == old(clickCount) + 1
      ensures Valid()
    {
      clicks := clicks + 1;
      mood := ClickMood(clicks);
      clickCount := clickCount + 1;
      if clickCount == 3 {
        isDancing := true;
        clickCount := 0;
      }
    }

    /** The one-second timeout after a click that was not the third. */
    method ClickTimeout()
      requires Valid()
      modifies this`clickCount
      ensures clickCount == 0
      ensures Valid()
    {
      clickCount := 0;
    }

    /** `handleDoubleClick`: the pet gets excited. Its two-second timer sets the click
        count to its own value, which triggers no effect, so the mood is not reset. */
    method DoubleClick()
      modifies this`mood
      ensures mood == Excited
    {
      mood := Excited;
    }

    /** A key press, with the intended window-based detector. */
    method KeyDown(key: string)
      requires Valid()
      modifies this`lastKeys, this`visible
      ensures (lastKeys, Last10(old(lastKeys) + [key]) == KONAMI) == DetectStep(KONAMI, old(lastKeys), key)
      ensures visible == (old(visible) || Last10(old(lastKeys) + [key]) == KONAMI)
      ensures Valid()
    {
      var (window, hit) := DetectStep(KONAMI, lastKeys, key);
      lastKeys := window;
      if hit {
        visible := true;
      }
    }
  }
}
