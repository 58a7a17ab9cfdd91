/** Candidate project identifiers: the wall-clock time as
    `strftime("%d%m%y%H%M%S")`, a dash, and three letters drawn with
    `random.choice(string.ascii_uppercase)`. The clock reading and the three
    draws are parameters. */
module ProjectId {
  import opened Text

  /** What `datetime.now()` returns, to the second. */
  datatype Clock = Clock(year: int, month: int, day: int, hour: int, minute: int, second: int)

  predicate ValidClock(t: Clock) {
    && 1 <= t.year <= 9999 && 1 <= t.month <= 12 && 1 <= t.day <= 31
    && 0 <= t.hour < 24 && 0 <= t.minute < 60 && 0 <= t.second < 60
  }

  /** Three indices into `string.ascii_uppercase`, one per `random.choice`. */
  predicate ValidPicks(picks: seq<nat>) {
    |picks| == 3 && forall k :: 0 <= k < 3 ==> picks[k] < 26
  }

  /** `string.ascii_uppercase[i]`. */
  function Uppercase(i: nat): (c: char)
    requires i < 26
    ensures 'A' <= c <= 'Z'
  {
    ('A' as int + i) as char
  }

  /** A zero-padded two-digit field, as `%d`, `%m`, `%y`, `%H`, `%M`, `%S` print. */
  function TwoDigits(n: nat): string
    requires n < 100
  {
    [DigitChar(n / 10), DigitChar(n % 10)]
  }

  /** `strftime("%d%m%y%H%M%S")`: `%y` keeps only the year within its century. */
  function Timestamp(t: Clock): (s: string)
    requires ValidClock(t)
    ensures |s| == 12 && AllDigits(s)
  {
    TwoDigits(t.day) + TwoDigits(t.month) + TwoDigits(t.year % 100)
      + TwoDigits(t.hour) + TwoDigits(t.minute) + TwoDigits(t.second)
  }

  function Suffix(picks: seq<nat>): string
    requires ValidPicks(picks)
  {
    [Uppercase(picks[0]), Uppercase(picks[1]), Uppercase(picks[2])]
  }

  /** Twelve digits, a dash, three capital letters. */
  predicate WellFormedId(id: string) {
    && |id| == 16
    && AllDigits(id[..12])
    && id[12] == '-'
    && forall k :: 13 <= k < 16 ==> 'A' <= id[k] <= 'Z'
  }

  /** `generate_project_id()`. */
  function GenerateProjectId(t: Clock, picks: seq<nat>): (id: string)
    requires ValidClock(t) && ValidPicks(picks)
    ensures WellFormedId(id)
  {
    var id := Timestamp(t) + "-" + Suffix(picks);
    assert id[..12] == Timestamp(t);
    id
  }

  /** What an identifier records: the six clock fields (the year modulo 100)
      and the three letter indices. */
  datatype IdParts = IdParts(day: int, month: int, yearInCentury: int,
                             hour: int, minute: int, second: int, picks: seq<int>)

  function FieldAt(id: string, k: nat): nat
    requires WellFormedId(id) && k + 2 <= 12
  {
    assert IsDigit(id[..12][k]) && IsDigit(id[..12][k + 1]);
    DigitValue(id[k]) * 10 + DigitValue(id[k + 1])
  }

  /** Reads an identifier back into its parts. */
  function ParseProjectId(id: string): IdParts
    requires WellFormedId(id)
  {
    IdParts(FieldAt(id, 0), FieldAt(id, 2), FieldAt(id, 4), FieldAt(id, 6),
            FieldAt(id, 8), FieldAt(id, 10),
            [id[13] as int - 'A' as int, id[14] as int - 'A' as int, id[15] as int - 'A' as int])
  }

  function PartsOf(t: Clock, picks: seq<nat>): IdParts {
    IdParts(t.day, t.month, t.year % 100, t.hour, t.minute, t.second, picks)
  }

  /** Parsing a generated identifier gives back the clock fields it was made
      from (the year only modulo 100) and the three draws. */
  lemma ParseGenerated(t: Clock, picks: seq<nat>)
    requires ValidClock(t) && ValidPicks(picks)
    ensures ParseProjectId(GenerateProjectId(t, picks)) == PartsOf(t, picks)
  {
    var id := GenerateProjectId(t, picks);
    var ts := Timestamp(t);
    assert id[..12] == ts;
    assert ParseProjectId(id).picks == picks;
  }

  /** Two generations give the same identifier exactly when they agree on
      every clock field to the second (the year modulo 100) and on all three
      draws: calls within the same second differ only by their letters,
      which is why the caller must check for collisions. */
  lemma SameIdIff(t1: Clock, p1: seq<nat>, t2: Clock, p2: seq<nat>)
    requires ValidClock(t1) && ValidPicks(p1) && ValidClock(t2) && ValidPicks(p2)
    ensures GenerateProjectId(t1, p1) == GenerateProjectId(t2, p2) <==> PartsOf(t1, p1) == PartsOf(t2, p2)
  {
    if GenerateProjectId(t1, p1) == GenerateProjectId(t2, p2) {
      ParseGenerated(t1, p1);
      ParseGenerated(t2, p2);
    }
    if PartsOf(t1, p1) == PartsOf(t2, p2) {
      assert Timestamp(t1) == Timestamp(t2);
      assert Suffix(p1) == Suffix(p2);
    }
  }
}
