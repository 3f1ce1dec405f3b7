/**
 * The concrete cases the repository's tests check (main_test.go), proved
 * from the general lemmas.
 */
module ServerExamples {
  import opened Wrappers
  import opened GoStrings
  import opened GoNet
  import opened Server

  lemma DirectConnection()
    ensures ClientIP(Request(MethodGet, "", "", "192.168.1.1:12345")) == "192.168.1.1"
  {
    ClientIPRemotePlain(Request(MethodGet, "", "", "192.168.1.1:12345"), "192.168.1.1", "12345");
  }

  lemma AddressIsTrimmed()
    ensures TrimSpace("203.0.113.1") == "203.0.113.1"
  {
    TrimSpaceUnpadded("203.0.113.1");
  }

  lemma ForwardedSingleTakesWhole()
    ensures ClientIP(Request(MethodGet, "203.0.113.1", "", "10.0.0.1:12345")) == TrimSpace("203.0.113.1")
  {
    ClientIPForwardedSingle(Request(MethodGet, "203.0.113.1", "", "10.0.0.1:12345"));
  }

  lemma ForwardedSingle()
    ensures ClientIP(Request(MethodGet, "203.0.113.1", "", "10.0.0.1:12345")) == "203.0.113.1"
  {
    ForwardedSingleTakesWhole();
    AddressIsTrimmed();
  }

  lemma ForwardedMultipleTakesFirst()
    ensures ClientIP(Request(MethodGet, "203.0.113.1, 198.51.100.1, 10.0.0.1", "", "10.0.0.1:12345"))
         == TrimSpace("203.0.113.1")
  {
    var r := Request(MethodGet, "203.0.113.1, 198.51.100.1, 10.0.0.1", "", "10.0.0.1:12345");
    assert r.forwardedFor == "203.0.113.1" + "," + " 198.51.100.1, 10.0.0.1";
    ClientIPForwardedFirst(r, "203.0.113.1", " 198.51.100.1, 10.0.0.1");
  }

  lemma ForwardedMultiple()
    ensures ClientIP(Request(MethodGet, "203.0.113.1, 198.51.100.1, 10.0.0.1", "", "10.0.0.1:12345")) == "203.0.113.1"
  {
    ForwardedMultipleTakesFirst();
    AddressIsTrimmed();
  }

  lemma PaddedAddressTrims()
    ensures TrimSpace("  203.0.113.1  ") == "203.0.113.1"
  {
    assert "  " + "203.0.113.1" + "  " == "  203.0.113.1  ";
    TrimSpacePadded("  ", "203.0.113.1", "  ");
  }

  lemma ForwardedWithSpacesTakesWhole()
    ensures ClientIP(Request(MethodGet, "  203.0.113.1  ", "", "10.0.0.1:12345")) == TrimSpace("  203.0.113.1  ")
  {
    ClientIPForwardedSingle(Request(MethodGet, "  203.0.113.1  ", "", "10.0.0.1:12345"));
  }

  lemma ForwardedWithSpaces()
    ensures ClientIP(Request(MethodGet, "  203.0.113.1  ", "", "10.0.0.1:12345")) == "203.0.113.1"
  {
    ForwardedWithSpacesTakesWhole();
    PaddedAddressTrims();
  }

  lemma BlankTrimsToEmpty()
    ensures TrimSpace(" ") == ""
  {
    assert " " + "" + "" == " ";
    TrimSpacePadded(" ", "", "");
  }

  lemma ForwardedBlankTakesFirst()
    ensures ClientIP(Request(MethodGet, " , 10.0.0.1", "", "10.0.0.1:12345")) == TrimSpace(" ")
  {
    var r := Request(MethodGet, " , 10.0.0.1", "", "10.0.0.1:12345");
    assert r.forwardedFor == " " + "," + " 10.0.0.1";
    ClientIPForwardedFirst(r, " ", " 10.0.0.1");
  }

  /** A first entry of only white space yields the empty string. */
  lemma ForwardedBlankFirstEntry()
    ensures ClientIP(Request(MethodGet, " , 10.0.0.1", "", "10.0.0.1:12345")) == ""
  {
    ForwardedBlankTakesFirst();
    BlankTrimsToEmpty();
  }

  lemma RealIP()
    ensures ClientIP(Request(MethodGet, "", "203.0.113.1", "10.0.0.1:12345")) == "203.0.113.1"
  {
  }

  lemma ForwardedOverRealIP()
    ensures ClientIP(Request(MethodGet, "203.0.113.1", "198.51.100.1", "10.0.0.1:12345")) == "203.0.113.1"
  {
    ForwardedSingle();
    ClientIPForwardedPrecedence(Request(MethodGet, "203.0.113.1", "", "10.0.0.1:12345"), "198.51.100.1", "10.0.0.1:12345");
  }

  lemma RemoteIPv6()
    ensures ClientIP(Request(MethodGet, "", "", "[2001:db8::1]:12345")) == "2001:db8::1"
  {
    ClientIPRemoteBracketed(Request(MethodGet, "", "", "[2001:db8::1]:12345"), "2001:db8::1", "12345");
  }

  lemma RemoteWithoutPort()
    ensures ClientIP(Request(MethodGet, "", "", "192.168.1.1")) == "192.168.1.1"
  {
    assert ':' !in "192.168.1.1";
  }

  /** An IPv4 address listed after an IPv6 one is still preferred. */
  lemma V4PreferredOverEarlierV6()
    ensures ServerIP(Some([
      Addr(true, true, true, true, "127.0.0.1"),
      Addr(true, false, false, true, "fe80::1"),
      Addr(true, false, true, true, "10.1.2.3")])) == "10.1.2.3"
  {
    var addrs := [
      Addr(true, true, true, true, "127.0.0.1"),
      Addr(true, false, false, true, "fe80::1"),
      Addr(true, false, true, true, "10.1.2.3")];
    ServerIPPrefersV4(addrs, 2);
  }

  lemma HandleIPRejectsOtherMethods(enumerated: Option<seq<Addr>>)
    ensures HandleIP(Request("POST", "", "", "192.168.1.1:12345"), enumerated) == MethodNotAllowed
    ensures HandleIP(Request("PUT", "", "", "192.168.1.1:12345"), enumerated) == MethodNotAllowed
    ensures HandleIP(Request("DELETE", "", "", "192.168.1.1:12345"), enumerated) == MethodNotAllowed
  {
  }

  /** A GET answers 200 with both addresses non-empty. */
  lemma HandleIPGet(enumerated: Option<seq<Addr>>)
    ensures var resp := HandleIP(Request(MethodGet, "", "", "192.168.1.1:12345"), enumerated);
      && StatusCode(resp) == 200
      && resp.payload.serverIP != ""
      && resp.payload.clientIP == "192.168.1.1"
  {
    DirectConnection();
  }

  lemma HandleConfigCases()
    ensures HandleConfig(Request(MethodGet, "", "", ""), "test-container-123") == Ok(ConfigResponse("test-container-123"))
    ensures HandleConfig(Request(MethodGet, "", "", ""), "") == Ok(ConfigResponse("N/A"))
    ensures HandleConfig(Request("POST", "", "", ""), "test-container-123") == MethodNotAllowed
  {
  }
}
