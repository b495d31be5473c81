/** The padding urlsafe_b64decode adds before decoding (src/_packagedcode/pypi.py).

    The data is padded with `4 - (len(data) & 3)` "=" characters; for a
    length n >= 0, `n & 3` is n % 4.  The decoding itself is not part of
    this model.
 */
module Base64Padding {
  import opened Basics

  /** The number of "=" characters added to data of length n. */
  function PadLength(n: nat): (k: nat)
    ensures 1 <= k <= 4
    ensures (n + k) % 4 == 0
    ensures k == 4 <==> n % 4 == 0
  {
    4 - n % 4
  }

  /** `data + "=" * (4 - (len(data) & 3))` */
  function Padded(data: string): (r: string)
    ensures 1 <= |r| - |data| <= 4
    ensures |r| % 4 == 0
    ensures r[..|data|] == data
    ensures forall i :: |data| <= i < |r| ==> r[i] == '='
  {
    data + Repeat('=', PadLength(|data|))
  }

  /** Already aligned data still gets a full block of four "=". */
  lemma AlignedDataGetsFullBlock(data: string)
    requires |data| % 4 == 0
    ensures Padded(data) == data + "===="
  {
    assert Repeat('=', 4) == "====";
  }
}
