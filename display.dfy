/** The alarm and status lines of `display_main_screen` (display.py:107-128):
    each bit of the alarm word and of the device status word that has an
    entry in its table contributes that entry's description, in table order.
    ALARM_BITS, which display.py imports, is not defined in config.py, so the
    alarm table is a parameter here; the status table is STATUS_BITS. */
module Display {
  import opened Bytes
  import opened Config

  /** Python's `v & (1 << b) != 0` for any integer v: bit b of v in two's
      complement, that is `(v >> b) & 1` with `>>` rounding down. */
  function Bit(v: int, b: nat): bool
    decreases b
  {
    if b == 0 then v % 2 == 1 else Bit(v / 2, b - 1)
  }

  function Pow2(n: nat): (p: nat)
    ensures p >= 1
  {
    if n == 0 then 1 else 2 * Pow2(n - 1)
  }

  /** The descriptions of the entries of `table` whose bit is set in v, in
      table order. */
  function SetBits(table: seq<(nat, string)>, v: int): (r: seq<string>)
    ensures |r| <= |table|
  {
    if table == [] then []
    else
      var k := |table| - 1;
      SetBits(table[..k], v) + (if Bit(v, table[k].0) then [table[k].1] else [])
  }

  /** The alarm line's text: NORMAL for 0, otherwise the red marker and at
      most the first two descriptions, comma-separated. */
  function AlarmStatus(alarmBits: seq<(nat, string)>, alarmValue: int): string
  {
    if alarmValue == 0 then "\U{1F7E2} NORMAL"
    else "\U{1F534} " + Join(Prefix(SetBits(alarmBits, alarmValue), 2), ", ")
  }

  /** The status line's text: the descriptions joined by " | ", or STANDBY
      when no bit of the table is set. */
  function StatusText(statusBits: seq<(nat, string)>, statusValue: int): string
  {
    var active := SetBits(statusBits, statusValue);
    if active == [] then "STANDBY" else Join(active, " | ")
  }

  /** The alarm decoding (display.py:107-116). */
  method AlarmLine(alarmBits: seq<(nat, string)>, alarmValue: int) returns (alarmStatus: string)
    ensures alarmStatus == AlarmStatus(alarmBits, alarmValue)
  {
    if alarmValue == 0 {
      alarmStatus := "\U{1F7E2} NORMAL";
    } else {
      var activeAlarms: seq<string> := [];
      for i := 0 to |alarmBits|
        invariant activeAlarms == SetBits(alarmBits[..i], alarmValue)
      {
        var (bit, desc) := alarmBits[i];
        assert alarmBits[..i + 1][..i] == alarmBits[..i];
        if Bit(alarmValue, bit) {
          activeAlarms := activeAlarms + [desc];
        }
      }
      assert alarmBits[..|alarmBits|] == alarmBits;
      alarmStatus := "\U{1F534} " + Join(Prefix(activeAlarms, 2), ", ");
    }
  }

  /** The status decoding over STATUS_BITS (display.py:120-127). */
  method StatusLine(statusValue: int) returns (statusStr: string)
    ensures statusStr == StatusText(StatusBits, statusValue)
  {
    var statusList: seq<string> := [];
    for i := 0 to |StatusBits|
      invariant statusList == SetBits(StatusBits[..i], statusValue)
    {
      var (bit, desc) := StatusBits[i];
      assert StatusBits[..i + 1][..i] == StatusBits[..i];
      if Bit(statusValue, bit) {
        statusList := statusList + [desc];
      }
    }
    assert StatusBits[..|StatusBits|] == StatusBits;
    statusStr := if statusList != [] then Join(statusList, " | ") else "STANDBY";
  }

  /** An entry's description is listed exactly when its bit is set; every
      listed description belongs to an entry whose bit is set. */
  lemma {:induction false} SetBitsMembers(table: seq<(nat, string)>, v: int)
    decreases |table|
    ensures forall i :: 0 <= i < |table| && Bit(v, table[i].0) ==> table[i].1 in SetBits(table, v)
    ensures forall d :: d in SetBits(table, v) ==> exists i :: 0 <= i < |table| && table[i].1 == d && Bit(v, table[i].0)
  {
    if table != [] {
      var k := |table| - 1;
      SetBitsMembers(table[..k], v);
      assert forall i :: 0 <= i < k ==> table[..k][i] == table[i];
    }
  }

  /** No bit of the table is set in v. */
  predicate NoneSet(table: seq<(nat, string)>, v: int)
  {
    forall i :: 0 <= i < |table| ==> !Bit(v, table[i].0)
  }

  /** The list is empty exactly when no bit of the table is set. */
  lemma {:induction false} SetBitsEmpty(table: seq<(nat, string)>, v: int)
    decreases |table|
    ensures SetBits(table, v) == [] <==> NoneSet(table, v)
  {
    if table != [] {
      var k := |table| - 1;
      SetBitsEmpty(table[..k], v);
      assert forall i :: 0 <= i < k ==> table[..k][i] == table[i];
    }
  }

  /** Only the table's bits matter: two values that agree on them list the
      same descriptions. */
  lemma {:induction false} SetBitsAgree(table: seq<(nat, string)>, v: int, w: int)
    requires forall i :: 0 <= i < |table| ==> Bit(v, table[i].0) == Bit(w, table[i].0)
    decreases |table|
    ensures SetBits(table, v) == SetBits(table, w)
  {
    if table != [] {
      var k := |table| - 1;
      assert forall i :: 0 <= i < k ==> table[..k][i] == table[i];
      SetBitsAgree(table[..k], v, w);
    }
  }

  /** An alarm word of 0 reads NORMAL; a nonzero one shows the red marker
      and the first one or two descriptions of set bits in table order, or
      nothing after the marker when no bit of the table is set. */
  lemma AlarmStatusCases(alarmBits: seq<(nat, string)>, alarmValue: int)
    ensures alarmValue == 0 ==> AlarmStatus(alarmBits, alarmValue) == "\U{1F7E2} NORMAL"
    ensures var active := SetBits(alarmBits, alarmValue);
      alarmValue != 0 ==>
        (active == [] ==> AlarmStatus(alarmBits, alarmValue) == "\U{1F534} ") &&
        (|active| == 1 ==> AlarmStatus(alarmBits, alarmValue) == "\U{1F534} " + active[0]) &&
        (|active| >= 2 ==> AlarmStatus(alarmBits, alarmValue) == "\U{1F534} " + active[0] + ", " + active[1])
  {
    var active := SetBits(alarmBits, alarmValue);
    if |active| >= 2 {
      assert Prefix(active, 2) == [active[0], active[1]];
      assert [active[0], active[1]][1..] == [active[1]];
      assert Join([active[0], active[1]], ", ") == active[0] + ", " + active[1];
    }
  }

  /** The status line reads STANDBY exactly when no bit of the table is set. */
  lemma StatusStandby(statusBits: seq<(nat, string)>, statusValue: int)
    requires forall i :: 0 <= i < |statusBits| ==> statusBits[i].1 != "STANDBY" && statusBits[i].1 != ""
    ensures StatusText(statusBits, statusValue) == "STANDBY" <==> NoneSet(statusBits, statusValue)
  {
    SetBitsEmpty(statusBits, statusValue);
    var active := SetBits(statusBits, statusValue);
    if active != [] {
      SetBitsMembers(statusBits, statusValue);
      assert active[0] in active;
      JoinStartsWithFirst(active, " | ");
      var j := Join(active, " | ");
      if |active| >= 2 {
        assert j[|active[0]|] == j[|active[0]|..|active[0]| + 3][0] == ' ';
        assert forall k :: 0 <= k < |"STANDBY"| ==> "STANDBY"[k] != ' ';
      }
      assert j != "STANDBY";
    }
  }

  /** The joined text starts with the first part, followed by the separator
      when more parts follow. */
  lemma JoinStartsWithFirst(parts: seq<string>, sep: string)
    requires parts != []
    ensures |Join(parts, sep)| >= |parts[0]|
    ensures Join(parts, sep)[..|parts[0]|] == parts[0]
    ensures |parts| == 1 ==> Join(parts, sep) == parts[0]
    ensures |parts| >= 2 ==> Join(parts, sep)[|parts[0]|..|parts[0]| + |sep|] == sep
  {
    if |parts| >= 2 {
      var j := Join(parts, sep);
      assert j == parts[0] + sep + Join(parts[1..], sep);
      assert j[..|parts[0]|] == parts[0];
      assert j[|parts[0]|..|parts[0]| + |sep|] == sep;
    }
  }

  /** A positive multiple of m is at least m. */
  lemma {:induction false} MulAtLeast(k: int, m: int)
    requires k >= 1 && m > 0
    decreases k
    ensures k * m >= m
  {
    if k > 1 {
      MulAtLeast(k - 1, m);
      assert k * m == (k - 1) * m + m;
    }
  }

  /** `x == q * m + r` with `0 <= r < m` fixes the quotient and remainder. */
  lemma DivModUnique(x: int, m: int, q: int, r: int)
    requires m > 0 && 0 <= r < m && x == q * m + r
    ensures x / m == q && x % m == r
  {
    var q' := x / m;
    var r' := x % m;
    assert x == q' * m + r';
    assert (q - q') * m == r' - r;
    if q > q' {
      MulAtLeast(q - q', m);
    } else if q < q' {
      MulAtLeast(q' - q, m);
    }
  }

  /** Halving commutes with reduction modulo an even number. */
  lemma HalfMod(v: int, m: int)
    requires m > 0
    ensures (v % (2 * m)) / 2 == (v / 2) % m
    ensures (v % (2 * m)) % 2 == v % 2
  {
    var q := v / (2 * m);
    var r := v % (2 * m);
    assert v == q * (2 * m) + r;
    assert v == (q * m + r / 2) * 2 + r % 2;
    DivModUnique(v, 2, q * m + r / 2, r % 2);
    DivModUnique(v / 2, m, q, r / 2);
  }

  /** Bit b of v only depends on v modulo any power of two above it. */
  lemma {:induction false} BitOfMod(v: int, b: nat, n: nat)
    requires b < n
    decreases b
    ensures Bit(v % Pow2(n), b) == Bit(v, b)
  {
    HalfMod(v, Pow2(n - 1));
    if b > 0 {
      BitOfMod(v / 2, b - 1, n - 1);
    }
  }

  /** Bits 0 to n - 1 of v are all clear. */
  predicate LowBitsZero(v: int, n: nat)
  {
    forall b :: 0 <= b < n ==> !Bit(v, b)
  }

  /** The low n bits of v are all clear exactly when v is a multiple of 2^n. */
  lemma {:induction false} LowBitsClear(v: int, n: nat)
    decreases n
    ensures LowBitsZero(v, n) <==> v % Pow2(n) == 0
  {
    if n > 0 {
      var p := Pow2(n - 1);
      assert Pow2(n) == 2 * p;
      LowBitsClear(v / 2, n - 1);
      HalfMod(v, p);
      if LowBitsZero(v, n) {
        assert !Bit(v, 0);
        forall b | 0 <= b < n - 1
          ensures !Bit(v / 2, b)
        {
          assert !Bit(v, b + 1);
        }
      }
      if v % 2 == 0 && LowBitsZero(v / 2, n - 1) {
        forall b | 0 <= b < n
          ensures !Bit(v, b)
        {
          if b > 0 {
            assert !Bit(v / 2, b - 1);
          }
        }
      }
      assert LowBitsZero(v, n) <==> v % 2 == 0 && LowBitsZero(v / 2, n - 1);
      assert v % (2 * p) == 0 <==> v % 2 == 0 && (v / 2) % p == 0;
    }
  }

  /** For a table of the bits 0 to 7 in order, with descriptions that are
      neither empty nor STANDBY, the status reads STANDBY exactly when the low
      byte of the status word is zero. */
  lemma ByteTableStandby(statusBits: seq<(nat, string)>, statusValue: int)
    requires |statusBits| == 8
    requires forall i :: 0 <= i < 8 ==> statusBits[i].0 == i
    requires forall i :: 0 <= i < 8 ==> statusBits[i].1 != "STANDBY" && statusBits[i].1 != ""
    ensures StatusText(statusBits, statusValue) == "STANDBY" <==> statusValue % 256 == 0
  {
    assert Pow2(8) == 256;
    StatusStandby(statusBits, statusValue);
    LowBitsClear(statusValue, 8);
    forall b | 0 <= b < 8
      ensures Bit(statusValue, b) == Bit(statusValue, statusBits[b].0)
    {
    }
    if LowBitsZero(statusValue, 8) {
      forall i | 0 <= i < 8
        ensures !Bit(statusValue, statusBits[i].0)
      {
        assert !Bit(statusValue, i);
      }
    }
    if NoneSet(statusBits, statusValue) {
      forall b | 0 <= b < 8
        ensures !Bit(statusValue, b)
      {
        assert !Bit(statusValue, statusBits[b].0);
      }
    }
  }

  /** For a table of bits below 8, bits above bit 7 never change the status line. */
  lemma ByteTableIgnoresHighBits(statusBits: seq<(nat, string)>, statusValue: int)
    requires forall i :: 0 <= i < |statusBits| ==> statusBits[i].0 < 8
    ensures StatusText(statusBits, statusValue) == StatusText(statusBits, statusValue % 256)
  {
    assert Pow2(8) == 256;
    forall i | 0 <= i < |statusBits|
      ensures Bit(statusValue, statusBits[i].0) == Bit(statusValue % 256, statusBits[i].0)
    {
      BitOfMod(statusValue, statusBits[i].0, 8);
    }
    SetBitsAgree(statusBits, statusValue, statusValue % 256);
  }

  /** With STATUS_BITS the status reads STANDBY exactly when the low byte of
      the status word is zero, and bits above bit 7 never change it. */
  lemma StatusBitsLowByte(statusValue: int)
    ensures StatusText(StatusBits, statusValue) == "STANDBY" <==> statusValue % 256 == 0
    ensures StatusText(StatusBits, statusValue) == StatusText(StatusBits, statusValue % 256)
  {
    StatusBitKeys();
    ByteTableStandby(StatusBits, statusValue);
    ByteTableIgnoresHighBits(StatusBits, statusValue);
  }
}
