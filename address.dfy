/** The address shortener of the token cards. */
module Address {

  /** `shorten`: a "0x" address longer than ten characters becomes its
      first six characters, "..." and its last four; anything else is
      returned as it is. */
  function Shorten(addr: string): (r: string)
    ensures |addr| > 10 && addr[..2] == "0x" ==>
      && |r| == 13
      && r[..6] == addr[..6]
      && r[6..9] == "..."
      && r[9..] == addr[|addr| - 4..]
    ensures !(|addr| > 10 && addr[..2] == "0x") ==> r == addr
  {
    if |addr| > 10 && addr[..2] == "0x" then addr[..6] + "..." + addr[|addr| - 4..] else addr
  }

  /** A shortened address keeps the "0x" prefix. */
  lemma ShortenedKeepsPrefix(addr: string)
    requires |addr| > 10 && addr[..2] == "0x"
    ensures Shorten(addr)[..2] == "0x"
  {
    var r := Shorten(addr);
    assert r[..2] == r[..6][..2];
  }

  /** Shortening twice is shortening once. */
  lemma ShortenIdempotent(addr: string)
    ensures Shorten(Shorten(addr)) == Shorten(addr)
  {
    var r := Shorten(addr);
    if |addr| > 10 && addr[..2] == "0x" {
      ShortenedKeepsPrefix(addr);
      assert r == r[..6] + r[6..9] + r[9..];
      assert r[|r| - 4..] == r[9..];
    }
  }

  /** Ten characters are too few to shorten, even with the prefix. */
  lemma TenCharactersUnchanged()
    ensures Shorten("0x12345678") == "0x12345678"
    ensures Shorten("0x123456789abc") == "0x1234...9abc"
  {
    assert "0x123456789abc"[..2] == "0x";
    assert "0x123456789abc"[..6] + "..." + "0x123456789abc"[10..] == "0x1234...9abc";
  }
}
