/** Names of the Gateways in the shard pool and how they are parsed back. */
module ShardNames {
  import opened Prelude
  import opened Decimal

  const MAX_INT := 0x7fff_ffff_ffff_ffff

  function Prefix(base: string): string {
    base + "-shard-"
  }

  function ShardName(base: string, idx: int): string {
    if idx <= 0 then base else Prefix(base) + Itoa(idx)
  }

  /** strconv.Atoi on a 64-bit platform: an optional sign, then at least one digit, in range. */
  function Atoi(s: string): Option<int> {
    var signed := s != [] && (s[0] == '+' || s[0] == '-');
    var digits := if signed then s[1..] else s;
    if digits == [] || !AllDigits(digits) then None
    else
      var magnitude: int := Value(digits);
      if signed && s[0] == '-' then
        if magnitude > MAX_INT + 1 then None else Some(-magnitude)
      else
        if magnitude > MAX_INT then None else Some(magnitude)
  }

  function ShardIndex(base: string, name: string): Option<nat> {
    if name == base then Some(0)
    else if !(Prefix(base) <= name) then None
    else match Atoi(name[|Prefix(base)|..])
      case Some(idx) => if idx <= 0 then None else Some(idx)
      case None => None
  }

  /** Every name the backend gives a shard parses back to that shard. */
  lemma NameRoundTrip(base: string, idx: nat)
    requires idx < 0x8000_0000_0000_0000
    ensures ShardIndex(base, ShardName(base, idx)) == Some(idx)
  {
    if idx > 0 {
      var name := ShardName(base, idx);
      assert name[|Prefix(base)|..] == Itoa(idx);
      assert IsDigit(Itoa(idx)[0]);
      ValueOfItoa(idx);
    }
  }

  /** Parsing is looser than naming: a pool member carries the name the backend would give its index
      exactly when its numeral has neither a plus sign nor a leading zero. */
  lemma CanonicalNameIff(base: string, name: string)
    requires ShardIndex(base, name).Some? && name != base
    ensures var suffix := name[|Prefix(base)|..];
            suffix != [] && (ShardName(base, ShardIndex(base, name).value) == name
                             <==> suffix[0] != '+' && suffix[0] != '0')
  {
    var suffix := name[|Prefix(base)|..];
    var idx := ShardIndex(base, name).value;
    assert name == Prefix(base) + suffix;
    if suffix[0] != '+' && suffix[0] != '0' {
      ItoaOfValue(suffix);
    } else {
      ItoaHasNoLeadingZero(idx);
      assert ShardName(base, idx)[|Prefix(base)|..] == Itoa(idx);
    }
  }

  lemma {:induction false} ItoaHasNoLeadingZero(n: nat)
    requires n > 0
    ensures Itoa(n)[0] != '0' && Itoa(n)[0] != '+'
  {
    if n < 10 {
    } else {
      ItoaHasNoLeadingZero(n / 10);
    }
  }

  /** So two distinct Gateways can claim one index. */
  lemma SharedIndex(base: string)
    ensures base + "-shard-7" != base + "-shard-07"
    ensures ShardIndex(base, base + "-shard-7") == ShardIndex(base, base + "-shard-07") == Some(7)
  {
    var p := Prefix(base);
    assert base + "-shard-7" == p + "7" && base + "-shard-07" == p + "07";
    assert (p + "7")[|p|..] == "7" && (p + "07")[|p|..] == "07";
    assert "7"[..0] == "" && "07"[..1] == "0" && "0"[..0] == "";
    assert Value("0") == 0 && Value("7") == 7 && Value("07") == 7;
  }
}
