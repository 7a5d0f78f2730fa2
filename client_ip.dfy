/** `getClientIp` of backend/functions/shared/ip-utils.ts: the caller's address as API
    Gateway saw it, or else the first hop of the `X-Forwarded-For` chain. The event is
    reduced to the two values the function reads. */
module ClientIp {

  import opened Wrappers
  import opened Text

  /** `header.split(",")[0]`: the text before the first comma, or all of it. */
  function FirstHop(header: string): (r: string)
    ensures ',' !in r
    ensures r == header || (|r| < |header| && header[..|r| + 1] == r + [','])
    ensures |r| <= |header| && r == header[..|r|]
  {
    var k := IndexOf(header, ",", 0);
    var r := SplitOn(header, ",")[0];
    if k < 0 then
      assert r == header;
      assert ',' !in r by {
        forall j | 0 <= j < |r|
          ensures r[j] != ','
        {
          assert !OccursAt(header, ",", j);
          assert header[j..j + 1] == [header[j]];
        }
      }
      r
    else
      assert r == header[..k];
      assert header[k..k + 1] == ",";
      assert header[..k + 1] == r + [','];
      assert header[..k + 1][..k] == r;
      assert ',' !in r by {
        forall j | 0 <= j < |r|
          ensures r[j] != ','
        {
          assert !OccursAt(header, ",", j);
          assert header[j..j + 1] == [header[j]];
        }
      }
      r
  }

  /** `getClientIp`: `sourceIp` is the identity's source address (`None` when the identity
      or the address is missing), `forwardedFor` the `x-forwarded-for` header. An empty
      source address and an empty first hop count as missing. */
  function GetClientIp(sourceIp: Option<string>, forwardedFor: Option<string>): (r: Option<string>)
    ensures sourceIp.Some? && sourceIp.value != "" ==> r == sourceIp
    ensures (sourceIp.None? || sourceIp.value == "") && forwardedFor.None? ==> r.None?
    ensures r.Some? ==> r.value != ""
  {
    if sourceIp.Some? && sourceIp.value != "" then sourceIp
    else if forwardedFor.None? then None
    else
      var hop := Strip(FirstHop(forwardedFor.value));
      if hop == "" then None else Some(hop)
  }

  /** Without a source address the result comes from the header, and it is nothing
      exactly when the header's first hop is blank. */
  lemma ForwardedBlank(sourceIp: Option<string>, header: string)
    requires sourceIp.None? || sourceIp.value == ""
    ensures GetClientIp(sourceIp, Some(header)).None?
            <==> forall i :: 0 <= i < |FirstHop(header)| ==> IsSpace(FirstHop(header)[i])
  {
    StripEmpty(FirstHop(header));
  }

  /** Otherwise it is the header's first hop without the whitespace around it: it starts
      at offset `a` of the header after nothing but whitespace, only whitespace follows it
      up to the first comma, and it holds no comma. */
  lemma ForwardedFirstHop(sourceIp: Option<string>, header: string) returns (a: nat)
    requires sourceIp.None? || sourceIp.value == ""
    requires GetClientIp(sourceIp, Some(header)).Some?
    ensures var v := GetClientIp(sourceIp, Some(header)).value;
            ',' !in v && !IsSpace(v[0]) && !IsSpace(v[|v| - 1])
            && a + |v| <= |FirstHop(header)| && header[a..a + |v|] == v
            && (forall i :: 0 <= i < a ==> IsSpace(header[i]))
            && (forall i :: a + |v| <= i < |FirstHop(header)| ==> IsSpace(header[i]))
  {
    var hop := FirstHop(header);
    a := StripSlice(hop);
    var v := Strip(hop);
    assert GetClientIp(sourceIp, Some(header)) == Some(v) && v != [];
    SliceOfPrefix(hop, header, a, v);
  }

  /** A slice of a comma-free prefix, surrounded by whitespace in that prefix, is the same
      slice of the whole text and is surrounded by the same whitespace there. */
  lemma SliceOfPrefix(hop: string, header: string, a: nat, v: string)
    requires |hop| <= |header| && hop == header[..|hop|] && ',' !in hop
    requires a + |v| <= |hop| && v == hop[a..a + |v|]
    requires forall i :: 0 <= i < a ==> IsSpace(hop[i])
    requires forall i :: a + |v| <= i < |hop| ==> IsSpace(hop[i])
    ensures ',' !in v && header[a..a + |v|] == v
    ensures forall i :: 0 <= i < a ==> IsSpace(header[i])
    ensures forall i :: a + |v| <= i < |hop| ==> IsSpace(header[i])
  {
    assert forall i :: 0 <= i < |hop| ==> hop[i] == header[i];
    assert ',' !in v by {
      forall j | 0 <= j < |v|
        ensures v[j] != ','
      {
        assert v[j] == hop[a + j];
      }
    }
  }
}
