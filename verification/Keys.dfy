/** Redis key names (store/tape.py, store/lock.py) and their recovery by list_users_with_config. */
module Keys {
  import opened Prelude

  const CFG_PREFIX := "tape:cfg:"
  const SRC_PREFIX := "tape:cfg:src:"
  const RUN_COUNTER_KEY := "tape:run:counter"

  function CfgKey(user: int): string { "tape:cfg:" + Decimal(user) }
  function CfgSourcesKey(user: int): string { "tape:cfg:src:" + Decimal(user) }
  function EntriesKey(user: int): string { "tape:entries:" + Decimal(user) }
  function RunsKey(user: int): string { "tape:runs:" + Decimal(user) }
  function Channel(user: int): string { "tape:events:" + Decimal(user) }
  function LockKey(user: int): string { "tape:lock:" + Decimal(user) }

  predicate IsDigit(c: char) { '0' <= c <= '9' }

  function Digit(n: nat): (c: char)
    requires n < 10
    ensures IsDigit(c) && c as int - '0' as int == n
  {
    "0123456789"[n]
  }

  function Digits(n: nat): (s: string)
    ensures s != "" && forall i :: 0 <= i < |s| ==> IsDigit(s[i])
  {
    if n < 10 then [Digit(n)] else Digits(n / 10) + [Digit(n % 10)]
  }

  /** Python's str(n) for an integer. */
  function Decimal(n: int): (s: string)
    ensures s != "" && (s[0] == '-' || IsDigit(s[0]))
  {
    if n < 0 then "-" + Digits(-n) else Digits(n)
  }

  function ParseDigits(s: string): Option<nat> {
    if s == "" then None
    else if !IsDigit(s[|s| - 1]) then None
    else
      var last := s[|s| - 1] as int - '0' as int;
      if |s| == 1 then Some(last)
      else match ParseDigits(s[..|s| - 1])
        case None => None
        case Some(n) => Some(10 * n + last)
  }

  function Sign(s: string): int {
    if s != "" && s[0] == '-' then -1 else 1
  }

  function Unsigned(s: string): string {
    if s != "" && (s[0] == '-' || s[0] == '+') then s[1..] else s
  }

  /** Python's int(s): an optional sign and decimal digits; None stands for ValueError. */
  function ParseInt(s: string): Option<int> {
    var digits := ParseDigits(Unsigned(s));
    if digits.None? then None else Some(Sign(s) * digits.value)
  }

  lemma {:induction false} ParseDigitsInverts(n: nat)
    ensures ParseDigits(Digits(n)) == Some(n)
  {
    var s := Digits(n);
    if n >= 10 {
      ParseDigitsInverts(n / 10);
      assert s[..|s| - 1] == Digits(n / 10);
    }
  }

  lemma ParseInverts(n: int)
    ensures ParseInt(Decimal(n)) == Some(n)
  {
    var m: nat := if n < 0 then -n else n;
    ParseDigitsInverts(m);
    assert Unsigned(Decimal(n)) == Digits(m);
    assert Sign(Decimal(n)) == (if n < 0 then -1 else 1);
  }

  lemma DecimalInjective(m: int, n: int)
    ensures Decimal(m) == Decimal(n) <==> m == n
  {
    ParseInverts(m);
    ParseInverts(n);
  }

  lemma SuffixAfter(prefix: string, s: string)
    ensures (prefix + s)[..|prefix|] == prefix && (prefix + s)[|prefix|..] == s
  {
  }

  /** Within one kind a key names one user; keys of different kinds never meet, whoever the users are. */
  lemma KeysNeverCollide(u: int, v: int)
    ensures CfgKey(u) == CfgKey(v) <==> u == v
    ensures CfgSourcesKey(u) == CfgSourcesKey(v) <==> u == v
    ensures EntriesKey(u) == EntriesKey(v) <==> u == v
    ensures RunsKey(u) == RunsKey(v) <==> u == v
    ensures LockKey(u) == LockKey(v) <==> u == v
    ensures Channel(u) == Channel(v) <==> u == v
    ensures CfgKey(u) !in {CfgSourcesKey(v), EntriesKey(v), RunsKey(v), LockKey(v), RUN_COUNTER_KEY}
    ensures CfgSourcesKey(u) !in {EntriesKey(v), RunsKey(v), LockKey(v), RUN_COUNTER_KEY}
    ensures EntriesKey(u) !in {RunsKey(v), LockKey(v), RUN_COUNTER_KEY}
    ensures RunsKey(u) !in {LockKey(v), RUN_COUNTER_KEY}
    ensures LockKey(u) != RUN_COUNTER_KEY
    ensures Channel(u) !in {CfgKey(v), CfgSourcesKey(v), EntriesKey(v), RunsKey(v), LockKey(v), RUN_COUNTER_KEY}
  {
    DecimalInjective(u, v);
    SuffixAfter("tape:cfg:", Decimal(u));
    SuffixAfter("tape:cfg:", Decimal(v));
    SuffixAfter("tape:cfg:src:", Decimal(u));
    SuffixAfter("tape:cfg:src:", Decimal(v));
    SuffixAfter("tape:entries:", Decimal(u));
    SuffixAfter("tape:entries:", Decimal(v));
    SuffixAfter("tape:runs:", Decimal(u));
    SuffixAfter("tape:runs:", Decimal(v));
    SuffixAfter("tape:lock:", Decimal(u));
    SuffixAfter("tape:lock:", Decimal(v));
    SuffixAfter("tape:events:", Decimal(u));
    SuffixAfter("tape:events:", Decimal(v));
    assert CfgKey(u)[9] == Decimal(u)[0] && CfgSourcesKey(v)[9] == 's';
    assert CfgKey(u)[5] == 'c' && CfgSourcesKey(u)[5] == 'c' && CfgSourcesKey(v)[5] == 'c';
    assert Channel(u)[5] == 'e' && Channel(u)[6] == 'v' && EntriesKey(v)[6] == 'n';
    assert EntriesKey(u)[5] == 'e' && EntriesKey(v)[5] == 'e';
    assert RunsKey(u)[5] == 'r' && RunsKey(v)[5] == 'r' && RunsKey(u)[8] == 's';
    assert LockKey(u)[5] == 'l' && LockKey(v)[5] == 'l';
    assert RUN_COUNTER_KEY[5] == 'r' && RUN_COUNTER_KEY[8] == ':';
  }

  /** The user a scanned key stands for: None for the sources keys and for a suffix int() rejects. */
  function UserOfKey(key: string): Option<int> {
    if SRC_PREFIX <= key || !(CFG_PREFIX <= key) then None else ParseInt(key[|CFG_PREFIX|..])
  }

  lemma UserOfKeyInverts(user: int)
    ensures UserOfKey(CfgKey(user)) == Some(user)
    ensures UserOfKey(CfgSourcesKey(user)) == None
  {
    ParseInverts(user);
    SuffixAfter("tape:cfg:", Decimal(user));
    assert CfgKey(user)[9] == Decimal(user)[0];
    assert SRC_PREFIX[9] == 's';
    SuffixAfter("tape:cfg:src:", Decimal(user));
  }

  /** The names themselves, for user 7. */
  lemma KeysOfUserSeven()
    ensures CfgKey(7) == "tape:cfg:7" && CfgSourcesKey(7) == "tape:cfg:src:7" && EntriesKey(7) == "tape:entries:7"
    ensures RunsKey(7) == "tape:runs:7" && LockKey(7) == "tape:lock:7" && Channel(7) == "tape:events:7"
    ensures RUN_COUNTER_KEY == "tape:run:counter"
  {
    assert Decimal(7) == "7";
  }

  /** Decimal is str(): for instance of 120 and of -35. */
  lemma DecimalExamples()
    ensures Decimal(120) == "120" && Decimal(-35) == "-35"
  {
    assert Digits(1) == "1" && Digits(12) == "1" + "2" && Digits(120) == "12" + "0";
    assert Digits(3) == "3" && Digits(35) == "3" + "5";
  }
}
