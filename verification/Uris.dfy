/** uProtocol URIs, their wildcards, and the integer splitting and joining helpers. */
module Uris {
  import opened Common

  const ANY_AUTHORITY := "*"
  const ANY_VERSION: U32 := 0xFF
  const ANY_RESOURCE: U32 := 0xFFFF

  datatype UUri = UUri(authority: string, ueId: U32, version: U32, resource: U32) {
    predicate HasWildcardAuthority() { authority == ANY_AUTHORITY }
    predicate HasWildcardEntityType() { ueId % 0x1_0000 == 0xFFFF }
    predicate HasWildcardEntityInstance() { ueId / 0x1_0000 == 0xFFFF }
    predicate HasWildcardVersion() { version == ANY_VERSION }
    predicate HasWildcardResource() { resource == ANY_RESOURCE }
  }

  /** The filter that matches every URI. */
  const ANY_UURI := UUri(ANY_AUTHORITY, 0xFFFF_FFFF, ANY_VERSION, ANY_RESOURCE)

  function AnyUuriFixedAuthorityId(authority: string, ueId: U32): UUri {
    UUri(authority, ueId, ANY_VERSION, ANY_RESOURCE)
  }

  /** Most and least significant half: `value >> 16` and `value & 0xFFFF`. */
  function SplitU32ToU16(value: U32): (U16, U16) {
    (value / 0x1_0000, value % 0x1_0000)
  }

  /** The four bytes, most significant first. */
  function SplitU32ToU8(value: U32): (U8, U8, U8, U8) {
    (value / 0x100_0000, value / 0x1_0000 % 0x100, value / 0x100 % 0x100, value % 0x100)
  }

  /** Two halves put side by side: `(high << 16) | low`. */
  function JoinU16(high: U16, low: U16): U32 {
    high * 0x1_0000 + low
  }

  /** The SOME/IP Request ID: client id in the high half, session id in the low half. */
  function CreateRequestId(client: U16, session: U16): U32 {
    JoinU16(client, session)
  }

  lemma JoinSplitInverse(high: U16, low: U16, value: U32)
    ensures SplitU32ToU16(JoinU16(high, low)) == (high, low)
    ensures var (h, l) := SplitU32ToU16(value); JoinU16(h, l) == value
    ensures var (b1, b2, b3, b4) := SplitU32ToU8(value);
            JoinU16(b1 * 0x100 + b2, b3 * 0x100 + b4) == value
  {
    assert value / 0x1_0000 == value / 0x100_0000 * 0x100 + value / 0x1_0000 % 0x100 by {
      assert value / 0x1_0000 / 0x100 == value / 0x100_0000;
    }
    assert value % 0x1_0000 == value / 0x100 % 0x100 * 0x100 + value % 0x100;
  }

  lemma JoinInjective(h1: U16, l1: U16, h2: U16, l2: U16)
    ensures JoinU16(h1, l1) == JoinU16(h2, l2) <==> h1 == h2 && l1 == l2
  {
    JoinSplitInverse(h1, l1, 0);
    JoinSplitInverse(h2, l2, 0);
  }
}
