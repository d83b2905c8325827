/** Day 14 (day-14/src/main.rs): Reindeer Olympics. A reindeer flies at
    its speed for `stamina` seconds, then rests for `cooldown` seconds, and
    so on. */
module Day14 {
  import opened Wrappers
  import opened Arith
  import opened Strings

  datatype Reindeer = Reindeer(name: string, speed: nat, stamina: nat, cooldown: nat)

  /** The seconds spent flying during the first `time` seconds, the way
      `get_distance` counts them: whole cycles, then what is left of the
      current cycle, cut at the stamina. */
  function RunningTime(r: Reindeer, time: nat): nat
    requires r.stamina + r.cooldown > 0
  {
    var cycleTime := r.stamina + r.cooldown;
    var fullCyclesCount := time / cycleTime;
    var fullCyclesTime := fullCyclesCount * cycleTime;
    var fullCyclesRunningTime := fullCyclesCount * r.stamina;
    var remainingTime := time - fullCyclesTime;
    fullCyclesRunningTime + Min(remainingTime, r.stamina)
  }

  /** `Reindeer::get_distance`; `None` where the source divides by a zero
      cycle time. */
  function Distance(r: Reindeer, time: nat): (d: Option<nat>)
    ensures d.None? <==> r.stamina + r.cooldown == 0
  {
    if r.stamina + r.cooldown == 0 then None
    else Some(r.speed * RunningTime(r, time))
  }

  /** Whether the reindeer flies during second `t` (counting from 0). */
  predicate Flying(r: Reindeer, t: nat)
    requires r.stamina + r.cooldown > 0
  {
    t % (r.stamina + r.cooldown) < r.stamina
  }

  /** The reference: the race run second by second. */
  function Flown(r: Reindeer, time: nat): nat
    requires r.stamina + r.cooldown > 0
  {
    if time == 0 then 0
    else Flown(r, time - 1) + (if Flying(r, time - 1) then r.speed else 0)
  }

  /** One more second adds a second of flight exactly when the reindeer
      flies in it. */
  lemma RunningStep(r: Reindeer, t: nat)
    requires r.stamina + r.cooldown > 0
    ensures RunningTime(r, t + 1) == RunningTime(r, t) + (if Flying(r, t) then 1 else 0)
  {
    var c := r.stamina + r.cooldown;
    var q := t / c;
    var m := t % c;
    ModUnique(t, c, q, m);
    if m + 1 < c {
      ModUnique(t + 1, c, q, m + 1);
    } else {
      ModUnique(t + 1, c, q + 1, 0);
    }
  }

  lemma {:induction false} RunningIsFlown(r: Reindeer, time: nat)
    requires r.stamina + r.cooldown > 0
    ensures r.speed * RunningTime(r, time) == Flown(r, time)
  {
    if time == 0 {
      ModUnique(0, r.stamina + r.cooldown, 0, 0);
    } else {
      RunningIsFlown(r, time - 1);
      RunningStep(r, time - 1);
      ScaleStep(r.speed, RunningTime(r, time - 1), Flying(r, time - 1));
    }
  }

  /** Scaling a count that grows by one or by nothing. */
  lemma ScaleStep(speed: nat, a: nat, step: bool)
    ensures speed * (a + (if step then 1 else 0)) == speed * a + (if step then speed else 0)
  {
  }

  /** The closed formula is the race run second by second. */
  lemma DistanceIsFlown(r: Reindeer, time: nat)
    requires r.stamina + r.cooldown > 0
    ensures Distance(r, time) == Some(Flown(r, time))
  {
    RunningIsFlown(r, time);
  }

  /** Distance never goes down as time goes on. */
  lemma {:induction false} DistanceMonotone(r: Reindeer, t: nat, u: nat)
    requires r.stamina + r.cooldown > 0 && t <= u
    ensures Distance(r, t).value <= Distance(r, u).value
    decreases u - t
  {
    DistanceIsFlown(r, t);
    DistanceIsFlown(r, u);
    if t < u {
      DistanceMonotone(r, t, u - 1);
      DistanceIsFlown(r, u - 1);
    }
  }

  /** Until its stamina runs out a reindeer flies all the time. */
  lemma DistanceEarly(r: Reindeer, time: nat)
    requires r.stamina + r.cooldown > 0 && time <= r.stamina
    ensures Distance(r, time) == Some(r.speed * time)
  {
    var c := r.stamina + r.cooldown;
    if time < c {
      ModUnique(time, c, 0, time);
    } else {
      ModUnique(time, c, 1, 0);
    }
  }

  /** `Reindeer::parse`: the words at 0, 3, 6 and 13; `None` where the
      source's `unwrap` panics. */
  function Parse(line: string): (r: Option<Reindeer>)
    ensures r.Some? <==>
      && |Words(line)| >= 14
      && ParseUsize(Words(line)[3]).Some?
      && ParseUsize(Words(line)[6]).Some?
      && ParseUsize(Words(line)[13]).Some?
    ensures r.Some? ==> r.value.name == Words(line)[0]
    ensures r.Some? ==> Some(r.value.speed) == ParseUsize(Words(line)[3])
    ensures r.Some? ==> Some(r.value.stamina) == ParseUsize(Words(line)[6])
    ensures r.Some? ==> Some(r.value.cooldown) == ParseUsize(Words(line)[13])
  {
    var words := Words(line);
    if |words| < 14 then None
    else
      match (ParseUsize(words[3]), ParseUsize(words[6]), ParseUsize(words[13]))
      case (Some(speed), Some(stamina), Some(cooldown)) => Some(Reindeer(words[0], speed, stamina, cooldown))
      case _ => None
  }

  /** `parse_reindeers`: every line must parse. */
  function ParseAll(lines: seq<string>): (r: Option<seq<Reindeer>>)
    ensures r.Some? ==> |r.value| == |lines| && forall i :: 0 <= i < |lines| ==> Parse(lines[i]) == Some(r.value[i])
    ensures r.None? ==> exists i :: 0 <= i < |lines| && Parse(lines[i]).None?
  {
    if |lines| == 0 then Some([])
    else
      match (Parse(lines[0]), ParseAll(lines[1..]))
      case (Some(d), Some(rest)) => Some([d] + rest)
      case (None, _) => None
      case (_, None) =>
        ghost var i :| 0 <= i < |lines| - 1 && Parse(lines[1..][i]).None?;
        assert Parse(lines[i + 1]).None?;
        None
  }

  /** The line the puzzle input uses for a reindeer. */
  function Describe(r: Reindeer): string
    requires |r.name| > 0 && NoWhitespace(r.name)
  {
    Unwords([r.name, "can", "fly", Decimal(r.speed), "km/s", "for", Decimal(r.stamina), "seconds,", "but",
      "then", "must", "rest", "for", Decimal(r.cooldown), "seconds."])
  }

  /** Reading the description of a reindeer gives the reindeer back. */
  lemma ParseDescribe(r: Reindeer)
    requires |r.name| > 0 && NoWhitespace(r.name)
    requires r.speed <= UsizeMax && r.stamina <= UsizeMax && r.cooldown <= UsizeMax
    ensures Parse(Describe(r)) == Some(r)
  {
    DescribeWords(r);
    ParseUsizeDecimal(r.speed);
    ParseUsizeDecimal(r.stamina);
    ParseUsizeDecimal(r.cooldown);
  }

  /** The words of a description are the pieces it was glued from. */
  lemma DescribeWords(r: Reindeer)
    requires |r.name| > 0 && NoWhitespace(r.name)
    ensures Words(Describe(r)) == [r.name, "can", "fly", Decimal(r.speed), "km/s", "for", Decimal(r.stamina), "seconds,", "but",
      "then", "must", "rest", "for", Decimal(r.cooldown), "seconds."]
  {
    DecimalWord(r.speed);
    DecimalWord(r.stamina);
    DecimalWord(r.cooldown);
    WordsUnwords([r.name, "can", "fly", Decimal(r.speed), "km/s", "for", Decimal(r.stamina), "seconds,", "but",
      "then", "must", "rest", "for", Decimal(r.cooldown), "seconds."]);
  }

  const Comet := Reindeer("Comet", 14, 10, 127)
  const Dancer := Reindeer("Dancer", 16, 11, 162)

  lemma RaceExamplesEarly()
    ensures Distance(Comet, 1) == Some(14) && Distance(Dancer, 1) == Some(16)
    ensures Distance(Comet, 10) == Some(140) && Distance(Dancer, 10) == Some(160)
    ensures Distance(Dancer, 11) == Some(176)
  {
    DistanceEarly(Comet, 1);
    DistanceEarly(Dancer, 1);
    DistanceEarly(Comet, 10);
    DistanceEarly(Dancer, 10);
    DistanceEarly(Dancer, 11);
  }

  /** Resting: no distance is gained after the stamina runs out, until the
      cycle ends. */
  lemma Resting(r: Reindeer, time: nat)
    requires r.stamina <= time <= r.stamina + r.cooldown && r.cooldown > 0
    ensures Distance(r, time) == Some(r.speed * r.stamina)
  {
    var c := r.stamina + r.cooldown;
    if time < c {
      ModUnique(time, c, 0, time);
    } else {
      ModUnique(time, c, 1, 0);
    }
  }

  lemma RaceExamplesResting()
    ensures Distance(Comet, 11) == Some(140) && Distance(Comet, 12) == Some(140)
    ensures Distance(Dancer, 12) == Some(176)
  {
    Resting(Comet, 11);
    Resting(Comet, 12);
    Resting(Dancer, 12);
  }

  lemma RaceExamplesLong()
    ensures Distance(Comet, 1000) == Some(1120) && Distance(Dancer, 1000) == Some(1056)
  {
    ModUnique(1000, 137, 7, 41);
    ModUnique(1000, 173, 5, 135);
  }
}
