/** AddressMapping (internal/capabilities/memory/dram/address_mapping.go): an address is cut
    into fields, all of power-of-two size, from the least significant bit up: offset,
    channel, bank group, bank, column, rank, row. A right shift is a division by a power of
    two, and masking with n - 1, for a power of two n, is the remainder by n. */
module AddressMapping {
  import opened Arithmetic

  function Pow2(n: nat): (r: nat)
    ensures r >= 1
  {
    if n == 0 then 1 else 2 * Pow2(n - 1)
  }

  predicate IsPowerOfTwo(n: nat) {
    n > 0 && (n == 1 || (n % 2 == 0 && IsPowerOfTwo(n / 2)))
  }

  function TrailingZeros(n: nat): nat {
    if n == 0 || n % 2 == 1 then 0 else 1 + TrailingZeros(n / 2)
  }

  /** The shift amount of a size gives the size back, exactly for powers of two. */
  lemma {:induction false} SizeFromBits(n: nat)
    requires n > 0
    ensures IsPowerOfTwo(n) <==> n == Pow2(TrailingZeros(n))
    decreases n
  {
    if n % 2 == 0 {
      SizeFromBits(n / 2);
    }
  }

  datatype Config = Config(channels: nat, ranks: nat, bankGroups: nat, banks: nat, rows: nat, columns: nat, channelWidth: nat)

  datatype Result = Ok(mapping: Mapping) | SizeError

  predicate AllPowersOfTwo(c: Config) {
    && IsPowerOfTwo(c.channels) && IsPowerOfTwo(c.ranks) && IsPowerOfTwo(c.bankGroups) && IsPowerOfTwo(c.banks)
    && IsPowerOfTwo(c.rows) && IsPowerOfTwo(c.columns) && IsPowerOfTwo(c.channelWidth)
  }

  function NewAddressMapping(c: Config): Result {
    if !AllPowersOfTwo(c) then SizeError
    else Ok(Mapping(TrailingZeros(c.channelWidth), TrailingZeros(c.channels), TrailingZeros(c.bankGroups),
                    TrailingZeros(c.banks), TrailingZeros(c.columns), TrailingZeros(c.ranks), TrailingZeros(c.rows)))
  }

  function Field(addr: nat, shift: nat, bits: nat): (r: nat)
    ensures r < Pow2(bits)
  {
    (addr / Pow2(shift)) % Pow2(bits)
  }

  datatype Mapping = Mapping(
    offsetBits: nat, channelBits: nat, bankgroupBits: nat, bankBits: nat, columnBits: nat, rankBits: nat, rowBits: nat)
  {
    function ChannelShift(): nat { offsetBits }
    function BankGroupShift(): nat { ChannelShift() + channelBits }
    function BankShift(): nat { BankGroupShift() + bankgroupBits }
    function ColumnShift(): nat { BankShift() + bankBits }
    function RankShift(): nat { ColumnShift() + columnBits }
    function RowShift(): nat { RankShift() + rankBits }
    function AddressBits(): nat { RowShift() + rowBits }

    function GetChannel(addr: nat): nat { Field(addr, ChannelShift(), channelBits) }
    function GetBankGroup(addr: nat): nat { Field(addr, BankGroupShift(), bankgroupBits) }
    function GetBank(addr: nat): nat { Field(addr, BankShift(), bankBits) }
    function GetColumn(addr: nat): nat { Field(addr, ColumnShift(), columnBits) }
    function GetRank(addr: nat): nat { Field(addr, RankShift(), rankBits) }
    function GetRow(addr: nat): nat { Field(addr, RowShift(), rowBits) }

    function BankIndexOf(rank: nat, bankgroup: nat, bank: nat): nat {
      rank * (Pow2(bankgroupBits) * Pow2(bankBits)) + bankgroup * Pow2(bankBits) + bank
    }

    function GetBankIndex(addr: nat): nat {
      BankIndexOf(GetRank(addr), GetBankGroup(addr), GetBank(addr))
    }

    function TotalBanks(): nat {
      Pow2(rankBits) * (Pow2(bankgroupBits) * Pow2(bankBits))
    }
  }

  lemma {:induction false} Pow2Adds(a: nat, b: nat)
    ensures Pow2(a + b) == Pow2(a) * Pow2(b)
  {
    if a > 0 {
      Pow2Adds(a - 1, b);
      assert 2 * (Pow2(a - 1) * Pow2(b)) == (2 * Pow2(a - 1)) * Pow2(b);
    }
  }

  lemma BelowProduct(x: nat, y: nat, n: nat, m: nat)
    requires x < n && y < m
    ensures x * m + y < n * m
  {
    NextMultiple(x, n, m);
  }

  /** Two digits: x in base m, and x / m in base n. */
  lemma ModOfProduct(x: nat, m: nat, n: nat)
    requires m > 0 && n > 0
    ensures x % (n * m) == x % m + m * ((x / m) % n)
  {
    TwoDigits(x, m, n, x / m, x % m, x / m / n, x / m % n);
  }

  lemma TwoDigits(x: nat, m: nat, n: nat, q: nat, r: nat, qq: nat, qr: nat)
    requires r < m && qr < n && x == q * m + r && q == qq * n + qr
    ensures n * m > 0 && x % (n * m) == r + m * qr
  {
    BelowProduct(qr, r, n, m);
    Distribute(qq, n, qr, m);
    DivisionIsUnique(x, n * m, qq, qr * m + r);
  }

  lemma Distribute(a: nat, n: nat, b: nat, m: nat)
    ensures (a * n + b) * m == a * (n * m) + b * m
  {
  }

  /** One more field. */
  lemma SplitField(addr: nat, shift: nat, bits: nat)
    ensures addr % Pow2(shift + bits) == addr % Pow2(shift) + Pow2(shift) * Field(addr, shift, bits)
  {
    Pow2Adds(shift, bits);
    assert Pow2(bits) * Pow2(shift) == Pow2(shift) * Pow2(bits);
    ModOfProduct(addr, Pow2(shift), Pow2(bits));
  }

  /** The fields put together again. */
  function Compose(m: Mapping, offset: nat, channel: nat, bankgroup: nat, bank: nat, column: nat, rank: nat, row: nat): nat {
    offset + Pow2(m.ChannelShift()) * channel + Pow2(m.BankGroupShift()) * bankgroup + Pow2(m.BankShift()) * bank
    + Pow2(m.ColumnShift()) * column + Pow2(m.RankShift()) * rank + Pow2(m.RowShift()) * row
  }

  /** Round trip: the fields of an address give back the address, up to the size of the
      memory. */
  lemma FieldsGiveTheAddressBack(m: Mapping, addr: nat)
    ensures Compose(m, addr % Pow2(m.offsetBits), m.GetChannel(addr), m.GetBankGroup(addr), m.GetBank(addr),
                    m.GetColumn(addr), m.GetRank(addr), m.GetRow(addr))
            == addr % Pow2(m.AddressBits())
  {
    SplitField(addr, m.ChannelShift(), m.channelBits);
    SplitField(addr, m.BankGroupShift(), m.bankgroupBits);
    SplitField(addr, m.BankShift(), m.bankBits);
    SplitField(addr, m.ColumnShift(), m.columnBits);
    SplitField(addr, m.RankShift(), m.rankBits);
    SplitField(addr, m.RowShift(), m.rowBits);
  }

  /** Every address has a bank. */
  lemma BankIndexInRange(m: Mapping, addr: nat)
    ensures m.GetBankIndex(addr) < m.TotalBanks()
  {
    var banks, groups := Pow2(m.bankBits), Pow2(m.bankgroupBits);
    BelowProduct(m.GetBankGroup(addr), m.GetBank(addr), groups, banks);
    BelowProduct(m.GetRank(addr), m.GetBankGroup(addr) * banks + m.GetBank(addr), Pow2(m.rankBits), groups * banks);
  }

  /** Two addresses share an entry of the bank table only if they share the bank. */
  lemma BankIndexIsInjective(m: Mapping, one: nat, two: nat)
    requires m.GetBankIndex(one) == m.GetBankIndex(two)
    ensures m.GetRank(one) == m.GetRank(two)
    ensures m.GetBankGroup(one) == m.GetBankGroup(two)
    ensures m.GetBank(one) == m.GetBank(two)
  {
    var banks, groups := Pow2(m.bankBits), Pow2(m.bankgroupBits);
    var low1, low2 := m.GetBankGroup(one) * banks + m.GetBank(one), m.GetBankGroup(two) * banks + m.GetBank(two);
    BelowProduct(m.GetBankGroup(one), m.GetBank(one), groups, banks);
    BelowProduct(m.GetBankGroup(two), m.GetBank(two), groups, banks);
    DigitsAgree(m.GetRank(one), low1, m.GetRank(two), low2, groups * banks);
    DigitsAgree(m.GetBankGroup(one), m.GetBank(one), m.GetBankGroup(two), m.GetBank(two), banks);
  }

  // ------------------------------------------------ in terms of the configuration

  /** A field of size s below the rest of an address, and the two parts of such an address. */
  function Join(s: nat, low: nat, high: nat): nat {
    low + s * high
  }

  function Low(x: nat, s: nat): nat
    requires s > 0
  {
    x % s
  }

  function High(x: nat, s: nat): nat
    requires s > 0
  {
    x / s
  }

  /** An address laid out from the least significant field up; `above` does not matter. */
  function Layout(c: Config, offset: nat, channel: nat, bankgroup: nat, bank: nat, column: nat, rank: nat, row: nat, above: nat): nat {
    Join(c.channelWidth, offset, Join(c.channels, channel, Join(c.bankGroups, bankgroup, Join(c.banks, bank,
      Join(c.columns, column, Join(c.ranks, rank, Join(c.rows, row, above)))))))
  }

  lemma JoinSplits(x: nat, s: nat, low: nat, high: nat)
    requires low < s
    ensures x == Join(s, low, high) <==> Low(x, s) == low && High(x, s) == high
  {
    if x == Join(s, low, high) {
      DivisionIsUnique(x, s, high, low);
    }
  }

  lemma DivideTwice(x: nat, m: nat, n: nat)
    requires m > 0 && n > 0
    ensures n * m > 0 && x / (n * m) == x / m / n
  {
    var q := x / m;
    BelowProduct(q % n, x % m, n, m);
    Distribute(q / n, n, q % n, m);
    DivisionIsUnique(x, n * m, q / n, (q % n) * m + x % m);
  }

  /** What is left of an address above its lower `shift` bits. */
  function Shifted(addr: nat, shift: nat): nat {
    High(addr, Pow2(shift))
  }

  /** One field of a known size. */
  lemma FieldIsLow(addr: nat, shift: nat, bits: nat, size: nat)
    requires IsPowerOfTwo(size) && bits == TrailingZeros(size)
    ensures Field(addr, shift, bits) == Low(Shifted(addr, shift), size)
    ensures Shifted(addr, shift + bits) == High(Shifted(addr, shift), size)
  {
    SizeFromBits(size);
    hide IsPowerOfTwo, TrailingZeros;
    Pow2Adds(bits, shift);
    DivideTwice(addr, Pow2(shift), Pow2(bits));
  }

  lemma OffsetIsLow(addr: nat, bits: nat, size: nat)
    requires IsPowerOfTwo(size) && bits == TrailingZeros(size)
    ensures Shifted(addr, bits) == High(addr, size)
  {
    SizeFromBits(size);
  }

  /** The mapping cuts every address where the layout says: an address is laid out from given
      fields, each below its size, exactly if these are the fields the mapping finds in it. */
  lemma MappingFollowsLayout(c: Config, m: Mapping, addr: nat, offset: nat, channel: nat, bankgroup: nat, bank: nat, column: nat,
                             rank: nat, row: nat, above: nat)
    requires NewAddressMapping(c) == Ok(m)
    requires offset < c.channelWidth && channel < c.channels && bankgroup < c.bankGroups && bank < c.banks
    requires column < c.columns && rank < c.ranks && row < c.rows
    ensures addr == Layout(c, offset, channel, bankgroup, bank, column, rank, row, above) <==>
            && Low(addr, c.channelWidth) == offset && m.GetChannel(addr) == channel && m.GetBankGroup(addr) == bankgroup
            && m.GetBank(addr) == bank && m.GetColumn(addr) == column && m.GetRank(addr) == rank && m.GetRow(addr) == row
            && Shifted(addr, m.AddressBits()) == above
  {
    hide Join, Low, High, Shifted, Field, Pow2, IsPowerOfTwo, TrailingZeros;
    var columnsUp := Join(c.columns, column, Join(c.ranks, rank, Join(c.rows, row, above)));
    var groupsUp := Join(c.bankGroups, bankgroup, Join(c.banks, bank, columnsUp));
    OffsetIsLow(addr, m.offsetBits, c.channelWidth);
    FieldIsLow(addr, m.ChannelShift(), m.channelBits, c.channels);
    JoinSplits(addr, c.channelWidth, offset, Join(c.channels, channel, groupsUp));
    JoinSplits(Shifted(addr, m.ChannelShift()), c.channels, channel, groupsUp);
    MiddleFields(c, m, addr, bankgroup, bank, columnsUp);
    UpperFields(c, m, addr, column, rank, row, above);
  }

  lemma MiddleFields(c: Config, m: Mapping, addr: nat, bankgroup: nat, bank: nat, rest: nat)
    requires NewAddressMapping(c) == Ok(m) && bankgroup < c.bankGroups && bank < c.banks
    ensures Shifted(addr, m.BankGroupShift()) == Join(c.bankGroups, bankgroup, Join(c.banks, bank, rest)) <==>
            m.GetBankGroup(addr) == bankgroup && m.GetBank(addr) == bank && Shifted(addr, m.ColumnShift()) == rest
  {
    hide Join, Low, High, Shifted, Field, Pow2, IsPowerOfTwo, TrailingZeros;
    FieldIsLow(addr, m.BankGroupShift(), m.bankgroupBits, c.bankGroups);
    FieldIsLow(addr, m.BankShift(), m.bankBits, c.banks);
    JoinSplits(Shifted(addr, m.BankGroupShift()), c.bankGroups, bankgroup, Join(c.banks, bank, rest));
    JoinSplits(Shifted(addr, m.BankShift()), c.banks, bank, rest);
  }

  lemma UpperFields(c: Config, m: Mapping, addr: nat, column: nat, rank: nat, row: nat, above: nat)
    requires NewAddressMapping(c) == Ok(m) && column < c.columns && rank < c.ranks && row < c.rows
    ensures Shifted(addr, m.ColumnShift()) == Join(c.columns, column, Join(c.ranks, rank, Join(c.rows, row, above))) <==>
            && m.GetColumn(addr) == column && m.GetRank(addr) == rank && m.GetRow(addr) == row
            && Shifted(addr, m.AddressBits()) == above
  {
    hide Join, Low, High, Shifted, Field, Pow2, IsPowerOfTwo, TrailingZeros;
    FieldIsLow(addr, m.ColumnShift(), m.columnBits, c.columns);
    FieldIsLow(addr, m.RankShift(), m.rankBits, c.ranks);
    FieldIsLow(addr, m.RowShift(), m.rowBits, c.rows);
    JoinSplits(Shifted(addr, m.ColumnShift()), c.columns, column, Join(c.ranks, rank, Join(c.rows, row, above)));
    JoinSplits(Shifted(addr, m.RankShift()), c.ranks, rank, Join(c.rows, row, above));
    JoinSplits(Shifted(addr, m.RowShift()), c.rows, row, above);
  }

  /** The index of a bank is laid out from bank, bank group and rank. */
  lemma BankIndexFollowsLayout(c: Config, m: Mapping, addr: nat)
    requires NewAddressMapping(c) == Ok(m)
    ensures m.GetBankIndex(addr) == Join(c.banks, m.GetBank(addr), Join(c.bankGroups, m.GetBankGroup(addr), m.GetRank(addr)))
  {
    SizeFromBits(c.banks);
    SizeFromBits(c.bankGroups);
    hide IsPowerOfTwo, TrailingZeros, Field, Pow2, Join;
    IndexIsJoined(m.GetRank(addr), c.bankGroups, m.GetBankGroup(addr), c.banks, m.GetBank(addr));
  }

  lemma IndexIsJoined(rank: nat, groups: nat, bankgroup: nat, banks: nat, bank: nat)
    ensures rank * (groups * banks) + bankgroup * banks + bank == Join(banks, bank, Join(groups, bankgroup, rank))
  {
    Distribute(rank, groups, bankgroup, banks);
  }
}
