/**
 * backend/utils.js: the routing number, account-number generation and the
 * display balances of seeded accounts. The random bytes are a parameter.
 */
module Utils {
  import opened Common
  import Decimal

  const DEFAULT_ROUTING_NUMBER := "231386894"

  /** `process.env.ROUTING_NUMBER || '231386894'`: an empty setting also falls back. */
  function RoutingNumber(env: Option<string>): (r: string)
    ensures r != ""
    ensures Truthy(env) ==> r == env.value
  {
    if Truthy(env) then env.value else DEFAULT_ROUTING_NUMBER
  }

  const ACCOUNT_NUMBER_MODULUS := 900000000000
  const ACCOUNT_NUMBER_OFFSET := 100000000000

  /**
   * `BigInt('0x' + buf.toString('hex'))`: two hex digits per byte, first
   * byte most significant, i.e. the big-endian value of the bytes.
   */
  function BigEndian(bytes: seq<bv8>): nat
  {
    if bytes == [] then 0 else 256 * BigEndian(bytes[..|bytes| - 1]) + bytes[|bytes| - 1] as nat
  }

  function Pow256(k: nat): nat
  {
    if k == 0 then 1 else 256 * Pow256(k - 1)
  }

  lemma {:induction false} BigEndianBound(bytes: seq<bv8>)
    ensures BigEndian(bytes) < Pow256(|bytes|)
  {
    if bytes != [] {
      var init := bytes[..|bytes| - 1];
      BigEndianBound(init);
      assert BigEndian(init) + 1 <= Pow256(|init|);
      assert 256 * (BigEndian(init) + 1) <= 256 * Pow256(|init|);
    }
  }

  /** `crypto.randomBytes(8)` gives a value below 2^64. */
  lemma RandomValueIs64Bit(bytes: seq<bv8>)
    requires |bytes| == 8
    ensures BigEndian(bytes) < 0x1_0000_0000_0000_0000
  {
    BigEndianBound(bytes);
    assert Pow256(8) == 0x1_0000_0000_0000_0000;
  }

  /** The number `generateAccountNumber` renders: `(r % 9e11) + 1e11`. */
  function AccountNumberValue(bytes: seq<bv8>): (n: nat)
    ensures ACCOUNT_NUMBER_OFFSET <= n <= 999999999999
    ensures n - ACCOUNT_NUMBER_OFFSET == BigEndian(bytes) % ACCOUNT_NUMBER_MODULUS
  {
    BigEndian(bytes) % ACCOUNT_NUMBER_MODULUS + ACCOUNT_NUMBER_OFFSET
  }

  function GenerateAccountNumber(prefix: string, bytes: seq<bv8>): (r: string)
    ensures |r| == |prefix| + 12
    ensures r[..|prefix|] == prefix
    ensures Decimal.AllDigits(r[|prefix|..])
    ensures Decimal.Parse(r[|prefix|..]) == AccountNumberValue(bytes)
  {
    var n := AccountNumberValue(bytes);
    Decimal.ShowLength(n, 12);
    Decimal.ParseShow(n);
    assert (prefix + Decimal.Show(n))[|prefix|..] == Decimal.Show(n);
    prefix + Decimal.Show(n)
  }

  /** With the default empty prefix the account number is twelve digits, the first not '0'. */
  lemma UnprefixedAccountNumber(bytes: seq<bv8>)
    ensures var r := GenerateAccountNumber("", bytes);
            |r| == 12 && Decimal.AllDigits(r) && r[0] != '0'
  {
    var n := AccountNumberValue(bytes);
    Decimal.ShowLength(n, 12);
    assert GenerateAccountNumber("", bytes) == Decimal.Show(n);
  }

  /** `seedDisplayBalance`: `switch ((type || '').toLowerCase())`. */
  function SeedDisplayBalance(accountType: Option<string>): (r: int)
    ensures r != 0 ==> Truthy(accountType)
    ensures r == 0 || r == 2760 || r == 165000 || r == 3240000
  {
    var key := Lower(if Truthy(accountType) then accountType.value else "");
    if key == "business" then 3240000
    else if key == "savings" then 2760
    else if key == "checking" then 165000
    else 0
  }

  /** The type is matched without regard to letter case. */
  lemma SeedDisplayBalanceIgnoresCase(t: string)
    ensures SeedDisplayBalance(Some(t)) == SeedDisplayBalance(Some(Lower(t)))
  {
    LowerIdempotent(t);
  }

  /** The table of the four cases, on sample spellings. */
  lemma SeedDisplayBalanceTable()
    ensures SeedDisplayBalance(Some("Business")) == 3240000
    ensures SeedDisplayBalance(Some("checking")) == 165000
    ensures SeedDisplayBalance(Some("savings")) == 2760
    ensures SeedDisplayBalance(Some("")) == SeedDisplayBalance(None) == 0
  {
    assert Lower("Business") == "business";
    assert Lower("checking") == "checking";
    assert Lower("savings") == "savings";
  }
}
