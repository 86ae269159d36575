/**
 * The cheat machinery that does not touch the world: the key buffer's
 * string form, the secret-code test on it, and the table from typed
 * commands to cheats.
 */
module Cheats {
  import opened Utils

  /** One decimal digit. */
  function Digit(d: nat): char
    requires d < 10
  {
    ('0' as int + d) as char
  }

  /** A key code written in decimal, as JavaScript turns a number into a string. */
  function Decimal(n: nat): (s: string)
    ensures |s| >= 1
    ensures n < 10 <==> |s| == 1
  {
    if n < 10 then [Digit(n)] else Decimal(n / 10) + [Digit(n % 10)]
  }

  /** `keys.toString()`: the key codes in decimal, separated by commas. */
  function Join(keys: seq<nat>): (s: string)
    ensures |s| == 0 <==> |keys| == 0
  {
    if |keys| == 0 then ""
    else if |keys| == 1 then Decimal(keys[0])
    else Decimal(keys[0]) + "," + Join(keys[1..])
  }

  /** The joined buffer of two non-empty buffers is their joins separated by a comma. */
  lemma {:induction false} JoinAppend(a: seq<nat>, b: seq<nat>)
    requires |a| > 0 && |b| > 0
    ensures Join(a + b) == Join(a) + "," + Join(b)
    decreases |a|
  {
    if |a| == 1 {
      assert (a + b)[1..] == b;
    } else {
      assert (a + b)[1..] == a[1..] + b;
      JoinAppend(a[1..], b);
    }
  }

  /** t occurs in s starting at index i. */
  predicate OccursAt(s: string, t: string, i: int)
  {
    0 <= i <= |s| - |t| && s[i..i + |t|] == t
  }

  /** `s.indexOf(t) >= 0`: t occurs somewhere in s. */
  predicate Contains(s: string, t: string)
  {
    exists i | 0 <= i <= |s| - |t| :: OccursAt(s, t, i)
  }

  /** `secretCode`: up, up, down, down, left, right, left, right, b, a, as joined key codes. */
  const SECRET: string := "38,38,40,40,37,39,37,39,66,65"

  /** The key listener's test: the joined buffer contains the secret code. */
  predicate Unlocks(keys: seq<nat>)
  {
    Contains(Join(keys), SECRET)
  }

  /** The ten key codes of the secret code. */
  predicate SecretKeys(k: seq<nat>)
  {
    && |k| == 10 && k[0] == 38 && k[1] == 38 && k[2] == 40 && k[3] == 40 && k[4] == 37
    && k[5] == 39 && k[6] == 37 && k[7] == 39 && k[8] == 66 && k[9] == 65
  }

  predicate TwoDigitKeys(k: seq<nat>)
  {
    forall i | 0 <= i < |k| :: 10 <= k[i] < 100
  }

  /**
   * A buffer of two-digit key codes joins to three characters per key
   * less one: the two digits of each key, and a comma between keys.
   */
  lemma {:induction false} JoinChars(k: seq<nat>)
    requires |k| > 0 && TwoDigitKeys(k)
    ensures |Join(k)| == 3 * |k| - 1
    ensures forall q | 0 <= q < |k| :: Join(k)[3 * q] == Digit(k[q] / 10) && Join(k)[3 * q + 1] == Digit(k[q] % 10)
    ensures forall q | 0 <= q < |k| - 1 :: Join(k)[3 * q + 2] == ','
    decreases |k|
  {
    var d := Decimal(k[0]);
    assert d == [Digit(k[0] / 10), Digit(k[0] % 10)] by {
      assert Decimal(k[0] / 10) == [Digit(k[0] / 10)];
    }
    if |k| > 1 {
      JoinChars(k[1..]);
      var r := Join(k[1..]);
      assert Join(k) == d + "," + r;
      forall q | 1 <= q < |k|
        ensures Join(k)[3 * q] == Digit(k[q] / 10) && Join(k)[3 * q + 1] == Digit(k[q] % 10)
      {
        assert Join(k)[3 * q] == r[3 * (q - 1)];
        assert Join(k)[3 * q + 1] == r[3 * (q - 1) + 1];
      }
      forall q | 1 <= q < |k| - 1 ensures Join(k)[3 * q + 2] == ',' {
        assert Join(k)[3 * q + 2] == r[3 * (q - 1) + 2];
      }
    }
  }

  /** The secret key codes join to exactly the secret string. */
  lemma SecretJoin(k: seq<nat>)
    requires SecretKeys(k)
    ensures Join(k) == SECRET
  {
    JoinChars(k);
    var s := Join(k);
    assert s[0] == '3' && s[1] == '8' && s[2] == ',';
    assert s[3] == '3' && s[4] == '8' && s[5] == ',';
    assert s[6] == '4' && s[7] == '0' && s[8] == ',';
    assert s[9] == '4' && s[10] == '0' && s[11] == ',';
    assert s[12] == '3' && s[13] == '7' && s[14] == ',';
    assert s[15] == '3' && s[16] == '9' && s[17] == ',';
    assert s[18] == '3' && s[19] == '7' && s[20] == ',';
    assert s[21] == '3' && s[22] == '9' && s[23] == ',';
    assert s[24] == '6' && s[25] == '6' && s[26] == ',';
    assert s[27] == '6' && s[28] == '5';
  }

  /** Whatever was typed before, ending on the ten secret keys unlocks god mode. */
  lemma TypingTheCodeUnlocks(earlier: seq<nat>, code: seq<nat>)
    requires SecretKeys(code)
    ensures Unlocks(earlier + code)
  {
    SecretJoin(code);
    if |earlier| == 0 {
      assert earlier + code == code;
      assert OccursAt(Join(code), SECRET, 0);
    } else {
      JoinAppend(earlier, code);
      var s := Join(earlier + code);
      var i := |Join(earlier)| + 1;
      assert s[i..i + |SECRET|] == SECRET;
      assert OccursAt(s, SECRET, i);
    }
  }

  /**
   * The test is on the string, not on the key codes: a key code 138
   * followed by the last nine secret keys unlocks too, because "138,38,…"
   * contains "38,38,…".
   */
  lemma UnalignedCodeUnlocks(code: seq<nat>, k: seq<nat>)
    requires SecretKeys(code) && k == [138] + code[1..]
    ensures Unlocks(k)
  {
    UnalignedJoin(code, k);
    var s := Join(k);
    assert s[1..1 + |SECRET|] == SECRET;
    assert OccursAt(s, SECRET, 1);
  }

  /** Key code 138 and then the last nine secret keys join to a "1" in front of the secret string. */
  lemma UnalignedJoin(code: seq<nat>, k: seq<nat>)
    requires SecretKeys(code) && k == [138] + code[1..]
    ensures Join(k) == "1" + SECRET
  {
    SecretJoin(code);
    JoinFrom(code, 0);
    JoinFrom(k, 0);
    assert k[1..] == code[1..];
    assert k[0..] == k && code[0..] == code;
    assert Decimal(138) == "1" + Decimal(38) by {
      assert Decimal(13) == [Digit(1), Digit(3)];
    }
  }

  /** Joining a buffer from index i on: its key at i, a comma, and the rest. */
  lemma JoinFrom(keys: seq<nat>, i: nat)
    requires i + 1 < |keys|
    ensures Join(keys[i..]) == Decimal(keys[i]) + "," + Join(keys[i + 1..])
  {
    assert keys[i..][1..] == keys[i + 1..];
  }

  /** Nine of the ten secret keys are not enough: their join is shorter than the code. */
  lemma PartialCodeLocked(code: seq<nat>)
    requires SecretKeys(code)
    ensures !Unlocks(code[..9])
  {
    JoinChars(code[..9]);
  }

  /** The five entries of the cheats table. */
  datatype Cheat = CowLevel | Invincible | StreetFighter | Udacious | TimeMachine

  /** The command that has to be typed, character for character, for each cheat. */
  function Command(c: Cheat): string
  {
    match c
    case CowLevel => "there is no cow level"
    case Invincible => "I AM INVINCIBLE!!!"
    case StreetFighter => "Street fighter is cool"
    case Udacious => "This game is completely Udacious!!!"
    case TimeMachine => "Hot tub time machine"
  }

  /** The lengths of the five commands, all different. */
  function CommandLength(c: Cheat): nat
  {
    match c
    case CowLevel => 21
    case Invincible => 18
    case StreetFighter => 22
    case Udacious => 35
    case TimeMachine => 20
  }

  /** No two cheats share a command: the commands differ already in length. */
  lemma CommandsDiffer(c: Cheat, d: Cheat)
    ensures |Command(c)| == CommandLength(c)
    ensures Command(c) == Command(d) <==> c == d
  {
    assert |Command(d)| == CommandLength(d);
  }

  /** `cheats[command]`: the cheat a typed command names, if any. */
  function CheatFor(command: string): (r: Option<Cheat>)
  {
    if command == Command(CowLevel) then Some(CowLevel)
    else if command == Command(Invincible) then Some(Invincible)
    else if command == Command(StreetFighter) then Some(StreetFighter)
    else if command == Command(Udacious) then Some(Udacious)
    else if command == Command(TimeMachine) then Some(TimeMachine)
    else None
  }

  /** The table and the commands are inverse: a command finds its cheat, and only it. */
  lemma CheatTableRoundTrip(c: Cheat, command: string)
    ensures CheatFor(Command(c)) == Some(c)
    ensures CheatFor(command) == Some(c) <==> command == Command(c)
    ensures CheatFor(command) == None <==> forall d: Cheat :: command != Command(d)
  {
    CommandsDiffer(c, CowLevel);
    CommandsDiffer(c, Invincible);
    CommandsDiffer(c, StreetFighter);
    CommandsDiffer(c, Udacious);
    CommandsDiffer(c, TimeMachine);
    if CheatFor(command) == None {
      forall d: Cheat ensures command != Command(d) {
        assert d.CowLevel? || d.Invincible? || d.StreetFighter? || d.Udacious? || d.TimeMachine?;
      }
    }
  }
}
