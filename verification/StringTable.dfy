// The packed table of display strings: the program that burns it into the EEPROM and its
// lookup (AVR_t6963/eeprom/main_burn.c), and the display's own lookup (AVR_t6963/main.c).

module StringTable {
  type Byte = b: int | 0 <= b < 0x100

  predicate IsString(s: seq<Byte>) { 0 !in s }

  predicate AllStrings(ss: seq<seq<Byte>>) { forall i :: 0 <= i < |ss| ==> IsString(ss[i]) }

  /** The strings one after the other, each with its NUL. */
  function Pack(ss: seq<seq<Byte>>): seq<Byte> {
    if ss == [] then [] else Pack(ss[..|ss| - 1]) + ss[|ss| - 1] + [0]
  }

  /** Where the NUL of string n is in the table. */
  function End(ss: seq<seq<Byte>>, n: nat): (e: int)
    requires n < |ss|
    ensures e >= 0
  {
    |Pack(ss[..n])| + |ss[n]|
  }

  // ---------- burning the table ----------

  /** The table builder; `temp` is a static buffer and starts as zeros. */
  method Burn(menuLabels: seq<seq<Byte>>, temp: array<Byte>) returns (j: nat)
    requires |Pack(menuLabels)| < temp.Length && forall k :: 0 <= k < temp.Length ==> temp[k] == 0
    modifies temp
    ensures j == |Pack(menuLabels)| && temp[..j] == Pack(menuLabels)
    ensures forall k :: j <= k < temp.Length ==> temp[k] == 0
  {
    j := 0;
    for i := 0 to |menuLabels|
      invariant j == |Pack(menuLabels[..i])| < temp.Length && temp[..j] == Pack(menuLabels[..i])
      invariant forall k :: j <= k < temp.Length ==> temp[k] == 0
    {
      PackNext(menuLabels, i);
      PackGrows(menuLabels, i + 1);
      j := Add(temp, j, menuLabels[i]);
    }
    assert menuLabels[..|menuLabels|] == menuLabels;
  }

  /** The body of the builder's loop. */
  method Add(temp: array<Byte>, from: nat, menuLabel: seq<Byte>) returns (j: nat)
    requires from + |menuLabel| + 1 < temp.Length && forall k :: from <= k < temp.Length ==> temp[k] == 0
    modifies temp
    ensures j == from + |menuLabel| + 1 && temp[..j] == old(temp[..from]) + menuLabel + [0]
    ensures forall k :: j <= k < temp.Length ==> temp[k] == 0
  {
    j := from;
    Copy(temp, j, menuLabel);
    j := j + |menuLabel|;
    j := j + 1;
    temp[j] := 0;
    assert temp[..j] == temp[..from] + temp[from..j - 1] + [temp[j - 1]];
  }

  /** memcpy(temp + j, s, strlen(s)) */
  method Copy(temp: array<Byte>, j: nat, s: seq<Byte>)
    requires j + |s| <= temp.Length
    modifies temp
    ensures temp[..j] == old(temp[..j]) && temp[j..j + |s|] == s
    ensures forall k :: j + |s| <= k < temp.Length ==> temp[k] == old(temp[k])
  {
    for n := 0 to |s|
      invariant temp[..j] == old(temp[..j]) && temp[j..j + n] == s[..n]
      invariant forall k :: j + n <= k < temp.Length ==> temp[k] == old(temp[k])
    {
      temp[j + n] := s[n];
    }
  }

  lemma PackNext(ss: seq<seq<Byte>>, i: nat)
    requires i < |ss|
    ensures Pack(ss[..i + 1]) == Pack(ss[..i]) + ss[i] + [0]
  {
    assert ss[..i + 1][..i] == ss[..i];
  }

  lemma {:induction false} PackGrows(ss: seq<seq<Byte>>, i: nat)
    requires i <= |ss|
    ensures |Pack(ss[..i])| <= |Pack(ss)|
    decreases |ss| - i
  {
    if i < |ss| {
      PackNext(ss, i);
      PackGrows(ss, i + 1);
    } else {
      assert ss[..i] == ss;
    }
  }

  // ---------- looking a string up ----------

  /** How many NULs a stretch of memory holds. */
  function Nuls(s: seq<Byte>): nat {
    if s == [] then 0 else Nuls(s[..|s| - 1]) + if s[|s| - 1] == 0 then 1 else 0
  }

  lemma NulsNext(m: seq<Byte>, from: nat, j: nat)
    requires from <= j < |m|
    ensures Nuls(m[from..j + 1]) == Nuls(m[from..j]) + if m[j] == 0 then 1 else 0
  {
    assert m[from..j + 1][..j - from] == m[from..j];
  }

  lemma {:induction false} NulsGrow(m: seq<Byte>, from: nat, i: nat, j: nat)
    requires from <= i <= j <= |m|
    ensures Nuls(m[from..i]) <= Nuls(m[from..j])
    decreases j - i
  {
    if i < j {
      NulsNext(m, from, j - 1);
      NulsGrow(m, from, i, j - 1);
    }
  }

  lemma {:induction false} SomeNul(s: seq<Byte>)
    ensures Nuls(s) >= 1 <==> 0 in s
  {
    if s != [] {
      SomeNul(s[..|s| - 1]);
      assert s == s[..|s| - 1] + [s[|s| - 1]];
    }
  }

  lemma LastByte(m: seq<Byte>, from: nat, j: nat)
    requires from <= j <= |m|
    ensures j == |m| ==> m[from..j] == m[from..]
  {
  }

  /** The first loop, in a memory m whose table starts at `base`: j stops at the count-th NUL
      behind the table's first byte. */
  method FindEnd(m: seq<Byte>, base: nat, count: nat) returns (j: nat)
    requires base < |m| && 1 <= count <= Nuls(m[base + 1..])
    ensures base < j < |m| && m[j] == 0 && Nuls(m[base + 1..j]) == count - 1
  {
    var i: nat := 0;
    j := base;
    while true
      invariant base <= j < |m| && i == Nuls(m[base + 1..j + 1]) < count
      decreases |m| - j
    {
      LastByte(m, base + 1, j + 1);
      j := j + 1;
      NulsNext(m, base + 1, j);
      if m[j] == 0 {
        i := i + 1;
      }
      if i >= count {
        return;
      }
    }
  }

  /** The second loop: the NUL before the one at j. */
  method FindStart(m: seq<Byte>, j: nat) returns (k: nat)
    requires j < |m| && 0 in m[..j]
    ensures k < j && m[k] == 0 && 0 !in m[k + 1..j]
  {
    ghost var previous :| 0 <= previous < j && m[..j][previous] == 0;
    k := j - 1;
    while m[k] != 0
      invariant previous <= k < j && 0 !in m[k + 1..j]
      decreases k
    {
      assert m[k..j] == [m[k]] + m[k + 1..j];
      k := k - 1;
    }
  }

  lemma NulBefore(m: seq<Byte>, base: nat, count: nat, j: nat)
    requires base < j <= |m| && Nuls(m[base + 1..j]) == count - 1
    requires count >= 2 || 0 in m[..base + 1]
    ensures 0 in m[..j]
  {
    if count >= 2 {
      SomeNul(m[base + 1..j]);
      assert m[..j] == m[..base + 1] + m[base + 1..j];
    } else {
      assert m[..j] == m[..base + 1] + m[base + 1..j];
    }
  }

  /** eeprom_str_lookup of main_burn.c, which counts from 0; what it copies, without the NUL. */
  method Lookup(m: seq<Byte>, base: nat, index: nat) returns (str: seq<Byte>)
    requires base < |m| && index + 1 <= Nuls(m[base + 1..])
    requires index >= 1 || 0 in m[..base + 1]
    ensures IsEntry(m, base, index + 1, str)
  {
    var j := FindEnd(m, base, index + 1);
    NulBefore(m, base, index + 1, j);
    var k := FindStart(m, j);
    str := m[k + 1..j];
  }

  /** eeprom_str_lookup of the display program, which counts from 1. */
  method LookupFromOne(m: seq<Byte>, base: nat, index: nat) returns (str: seq<Byte>)
    requires base < |m| && 1 <= index <= Nuls(m[base + 1..])
    requires index >= 2 || 0 in m[..base + 1]
    ensures IsEntry(m, base, index, str)
  {
    var j := FindEnd(m, base, index);
    NulBefore(m, base, index, j);
    var k := FindStart(m, j);
    str := m[k + 1..j];
  }

  /** s is what stands between the count-th NUL behind the table's first byte and the NUL before it. */
  ghost predicate IsEntry(m: seq<Byte>, base: nat, count: nat, s: seq<Byte>)
    requires base < |m|
  {
    exists j: nat, k: nat ::
      && base < j < |m| && m[j] == 0 && Nuls(m[base + 1..j]) == count - 1
      && k < j && m[k] == 0 && 0 !in m[k + 1..j] && s == m[k + 1..j]
  }

  // ---------- what the lookups find ----------

  lemma {:induction false} NulsConcat(a: seq<Byte>, b: seq<Byte>)
    ensures Nuls(a + b) == Nuls(a) + Nuls(b)
    decreases |b|
  {
    if b == [] {
      assert a + b == a;
    } else {
      var n := |b| - 1;
      assert (a + b)[..|a + b| - 1] == a + b[..n];
      NulsConcat(a, b[..n]);
    }
  }

  lemma {:induction false} NulsOfPack(ss: seq<seq<Byte>>)
    requires AllStrings(ss)
    ensures Nuls(Pack(ss)) == |ss|
  {
    if ss != [] {
      var n := |ss| - 1;
      NulsOfPack(ss[..n]);
      NulsConcat(Pack(ss[..n]), ss[n]);
      SomeNul(ss[n]);
      var all := Pack(ss);
      assert all[..|all| - 1] == Pack(ss[..n]) + ss[n];
    }
  }

  /** A table in memory, with other data around it. */
  function Memory(before: seq<Byte>, ss: seq<seq<Byte>>, after: seq<Byte>): seq<Byte> {
    before + Pack(ss) + after
  }

  /** The lookups do not look at the table's first byte: an empty first string is not counted. */
  function Skipped(ss: seq<seq<Byte>>): nat {
    if ss != [] && ss[0] == [] then 1 else 0
  }

  lemma {:induction false} PackPrefix(ss: seq<seq<Byte>>, t: nat)
    requires t < |ss|
    ensures Pack(ss[..t]) + ss[t] + [0] <= Pack(ss)
    decreases |ss| - t
  {
    PackNext(ss, t);
    if t + 1 < |ss| {
      PackPrefix(ss, t + 1);
    } else {
      assert ss[..t + 1] == ss;
    }
  }

  /** Where string t lies in memory, and how many NULs a lookup counts before its end. */
  lemma Layout(before: seq<Byte>, ss: seq<seq<Byte>>, after: seq<Byte>, t: nat)
    requires AllStrings(ss) && t < |ss| && t >= Skipped(ss)
    ensures var m, base := Memory(before, ss, after), |before|;
            var start, j := base + |Pack(ss[..t])|, base + End(ss, t);
            && base < j < |m| && m[j] == 0 && m[start..j] == ss[t]
            && (t >= 1 ==> start > base && m[start - 1] == 0) && (t == 0 ==> start == base)
            && Nuls(m[base + 1..j]) == t - Skipped(ss)
  {
    var m, base := Memory(before, ss, after), |before|;
    var head := Pack(ss[..t]);
    var whole := head + ss[t];
    var start, j := base + |head|, base + |whole|;
    PackPrefix(ss, t);
    assert whole + [0] <= m[base..];
    InMemory(m, base, head, ss[t]);
    NulsOfWhole(ss, t);
    FirstOfPack(ss, t);
    assert m[base + 1..j] == whole[1..];
    if t >= 1 {
      PackNext(ss, t - 1);
      assert head[|head| - 1] == 0;
    }
  }

  /** Reading a stretch of memory part by part. */
  lemma InMemory(m: seq<Byte>, base: nat, head: seq<Byte>, s: seq<Byte>)
    requires base <= |m| && head + s + [0] <= m[base..]
    ensures var start, j := base + |head|, base + |head| + |s|;
            j < |m| && m[j] == 0 && m[start..j] == s && m[base..j] == head + s
            && (head != [] ==> m[start - 1] == head[|head| - 1])
  {
    var all := head + s + [0];
    assert m[base..][..|all|] == all;
    assert forall k :: 0 <= k < |all| ==> m[base + k] == all[k];
  }

  lemma NulsOfWhole(ss: seq<seq<Byte>>, t: nat)
    requires AllStrings(ss) && t < |ss| && t >= Skipped(ss)
    ensures var whole := Pack(ss[..t]) + ss[t];
            whole != [] && Nuls(whole[1..]) == t - Skipped(ss)
  {
    var whole := Pack(ss[..t]) + ss[t];
    NulsOfPack(ss[..t]);
    SomeNul(ss[t]);
    NulsConcat(Pack(ss[..t]), ss[t]);
    FirstOfPack(ss, t);
    assert whole == [whole[0]] + whole[1..];
    NulsConcat([whole[0]], whole[1..]);
    assert Nuls([whole[0]][..0]) == 0;
  }

  /** The table begins with a NUL exactly when its first string is empty. */
  lemma {:induction false} FirstOfPack(ss: seq<seq<Byte>>, t: nat)
    requires AllStrings(ss) && t < |ss| && t >= Skipped(ss)
    ensures var s := Pack(ss[..t]) + ss[t]; s != [] && (s[0] == 0 <==> Skipped(ss) == 1)
    decreases t
  {
    if t > 0 {
      PackNext(ss, t - 1);
      if t - 1 >= Skipped(ss) {
        FirstOfPack(ss, t - 1);
      } else {
        assert Pack(ss[..0]) == [];
      }
    }
  }

  lemma InStretch(m: seq<Byte>, from: nat, to: nat, p: nat)
    requires from <= p < to <= |m|
    ensures m[p] in m[from..to]
  {
    assert m[from..to][p - from] == m[p];
  }

  lemma SameStart(m: seq<Byte>, h: nat, k: nat, j: nat)
    requires h < j <= |m| && k < j && m[h] == 0 && m[k] == 0
    ensures h == k || 0 in m[h + 1..j] || 0 in m[k + 1..j]
  {
    if h < k {
      InStretch(m, h + 1, j, k);
    } else if k < h {
      InStretch(m, k + 1, j, h);
    }
  }

  lemma NulOnEitherSide(m: seq<Byte>, base: nat, k: nat, j: nat)
    requires base < j <= |m| && k < j && m[k] == 0
    ensures 0 in m[..base + 1] || Nuls(m[base + 1..j]) >= 1
  {
    if k <= base {
      InStretch(m, 0, base + 1, k);
      assert m[0..base + 1] == m[..base + 1];
    } else {
      InStretch(m, base + 1, j, k);
      SomeNul(m[base + 1..j]);
    }
  }

  lemma TailLength(before: seq<Byte>, first: seq<Byte>, k: nat)
    requires k < |before| && before[k] == 0 && 0 !in before[k + 1..]
    ensures before[k + 1..] + first == first <==> before[|before| - 1] == 0
  {
    if k < |before| - 1 {
      assert before[k + 1..][|before| - k - 2] == before[|before| - 1];
      assert |before[k + 1..] + first| > |first|;
    } else {
      assert before[k + 1..] + first == first;
    }
  }

  /** A lookup has only one possible result. */
  lemma EntryIsUnique(m: seq<Byte>, base: nat, count: nat, s: seq<Byte>, r: seq<Byte>)
    requires base < |m| && IsEntry(m, base, count, s) && IsEntry(m, base, count, r)
    ensures s == r
  {
    var j: nat, k: nat :|
      && base < j < |m| && m[j] == 0 && Nuls(m[base + 1..j]) == count - 1
      && k < j && m[k] == 0 && 0 !in m[k + 1..j] && s == m[k + 1..j];
    var i: nat, h: nat :|
      && base < i < |m| && m[i] == 0 && Nuls(m[base + 1..i]) == count - 1
      && h < i && m[h] == 0 && 0 !in m[h + 1..i] && r == m[h + 1..i];
    SameEnd(m, base, i, j);
    SameStart(m, h, k, j);
  }

  lemma SameEnd(m: seq<Byte>, base: nat, i: nat, j: nat)
    requires base < i < |m| && base < j < |m| && m[i] == 0 && m[j] == 0
    requires Nuls(m[base + 1..i]) == Nuls(m[base + 1..j])
    ensures i == j
  {
    if i < j {
      NulsNext(m, base + 1, i);
      NulsGrow(m, base + 1, i + 1, j);
    } else if j < i {
      NulsNext(m, base + 1, j);
      NulsGrow(m, base + 1, j + 1, i);
    }
  }

  /** Main result for every string behind the first: whatever surrounds the table, both lookups
      can find it and find exactly it. */
  lemma FindsString(before: seq<Byte>, ss: seq<seq<Byte>>, after: seq<Byte>, t: nat, str: seq<Byte>)
    requires AllStrings(ss) && 1 <= t < |ss|
    ensures var m, base, count := Memory(before, ss, after), |before|, t + 1 - Skipped(ss);
            && base < |m| && count <= Nuls(m[base + 1..]) && (count >= 2 || 0 in m[..base + 1])
            && (IsEntry(m, base, count, str) <==> str == ss[t])
  {
    var m, base, count := Memory(before, ss, after), |before|, t + 1 - Skipped(ss);
    Layout(before, ss, after, t);
    EntryBetween(m, base, count, base + |Pack(ss[..t])|, base + End(ss, t), ss[t], str);
  }

  /** What stands between two NULs behind the table's first byte is an entry, and the only one. */
  lemma EntryBetween(m: seq<Byte>, base: nat, count: nat, start: nat, j: nat, s: seq<Byte>, str: seq<Byte>)
    requires base < start <= j < |m| && m[start - 1] == 0 && m[j] == 0 && m[start..j] == s && 0 !in s
    requires Nuls(m[base + 1..j]) == count - 1
    ensures count <= Nuls(m[base + 1..]) && (count >= 2 || 0 in m[..base + 1])
    ensures IsEntry(m, base, count, str) <==> str == s
  {
    Findable(m, base, j, count);
    var k: nat := start - 1;
    assert m[k + 1..j] == s;
    assert IsEntry(m, base, count, s);
    NulOnEitherSide(m, base, k, j);
    if IsEntry(m, base, count, str) {
      EntryIsUnique(m, base, count, str, s);
    }
  }

  lemma Findable(m: seq<Byte>, base: nat, j: nat, count: nat)
    requires base < j < |m| && m[j] == 0 && Nuls(m[base + 1..j]) == count - 1
    ensures count <= Nuls(m[base + 1..])
  {
    NulsNext(m, base + 1, j);
    NulsGrow(m, base + 1, j + 1, |m|);
    assert m[base + 1..|m|] == m[base + 1..];
  }

  lemma {:induction false} LastNul(s: seq<Byte>) returns (k: nat)
    requires 0 in s
    ensures k < |s| && s[k] == 0 && 0 !in s[k + 1..]
    decreases |s|
  {
    k := |s| - 1;
    if s[k] != 0 {
      assert s == s[..k] + [s[k]];
      k := LastNul(s[..|s| - 1]);
      assert s[k + 1..] == s[..|s| - 1][k + 1..] + [s[|s| - 1]];
    }
  }

  lemma FirstEntry(m: seq<Byte>, before: seq<Byte>, j: nat, k: nat, first: seq<Byte>)
    requires before <= m && k < |before| < j < |m| && m[|before|..j] == first && 0 !in first
    requires m[j] == 0 && Nuls(m[|before| + 1..j]) == 0
    requires before[k] == 0 && 0 !in before[k + 1..]
    ensures IsEntry(m, |before|, 1, before[k + 1..] + first)
  {
    var found := before[k + 1..] + first;
    assert m[k + 1..j] == m[..|before|][k + 1..] + m[|before|..j];
    assert m[..|before|] == before;
    assert m[k] == before[k];
  }

  /** The first string, when it is not empty, comes with everything behind the last NUL in
      front of the table: it is found exactly when the byte in front of the table is a NUL. */
  lemma FindsFirst(before: seq<Byte>, ss: seq<seq<Byte>>, after: seq<Byte>, str: seq<Byte>)
    requires AllStrings(ss) && ss != [] && ss[0] != [] && 0 in before
    requires IsEntry(Memory(before, ss, after), |before|, 1, str)
    ensures str == ss[0] <==> before[|before| - 1] == 0
  {
    var m, base := Memory(before, ss, after), |before|;
    var j := base + End(ss, 0);
    assert ss[..0] == [];
    Layout(before, ss, after, 0);
    var k: nat := LastNul(before);
    FirstEntry(m, before, j, k, ss[0]);
    EntryIsUnique(m, base, 1, str, before[k + 1..] + ss[0]);
    TailLength(before, ss[0], k);
  }
}
