/** What several parts of the program count with. */
module Words {
  const TWO32: nat := 0x1_0000_0000
  type uint32 = x: nat | x < TWO32

  datatype Direction = Read | Write

  function Min(a: nat, b: nat): nat {
    if a < b then a else b
  }

  lemma {:induction false} Rejoin<T>(d: seq<T>, n: nat, m: nat)
    requires n <= m <= |d|
    ensures d[..n] + d[n..] == d && d[..m][..n] == d[..n] && d[..m][n..] == d[n..m] && d[..n] + d[n..m] == d[..m]
  {
  }
}
