/**
 * The vocabulary shared by the four transport adapters: connection ids, the
 * messages handed to `send`, the identities of registered closures, the
 * interface calls an adapter receives, and the decimal rendering PHP applies
 * when an integer connection id is used as a string.
 */
module Transport {
  import opened Wire

  /** Adapter-scoped connection id; PHP passes it around as a string. */
  type ClientId = string

  /**
   * What `send` accepts (`mixed $message`): plain bytes, or a WebSocket frame
   * built as `new Frame(payload, final, opcode)`.
   */
  datatype Message = Raw(bytes: Bytes) | Frame(payload: Bytes, final: bool, opcode: int)

  /** `Frame::OP_BINARY`, the binary-data opcode of section 5.2 of RFC 6455. */
  const OP_BINARY: int := 2

  /**
   * The identity of a closure handed to `onOfferRequest`: one of the
   * application's own (`Plain`), or the wrapper the signaling facade builds
   * around the application callback numbered `user` (`Decorated`).
   */
  datatype Callback = Plain(token: nat) | Decorated(user: nat)

  /** A call made on an adapter through the three-method signaling interface. */
  datatype Call =
    | StartCall
    | SendCall(clientId: ClientId, message: Message)
    | OnOfferRequestCall(callback: Callback)

  function Digit(d: nat): (c: char)
    requires d < 10
    ensures '0' <= c <= '9' && c as int - '0' as int == d
  {
    ('0' as int + d) as char
  }

  /** The decimal text of `n`, as PHP renders an integer array key or integer argument as a string. */
  function NatToString(n: nat): (s: string)
    ensures |s| >= 1
    ensures n >= 10 ==> |s| >= 2
    ensures forall i :: 0 <= i < |s| ==> '0' <= s[i] <= '9'
    ensures n > 0 ==> s[0] != '0'
    decreases n
  {
    if n < 10 then [Digit(n)] else NatToString(n / 10) + [Digit(n % 10)]
  }

  /** The number a string of decimal digits spells, most significant digit first. */
  function DecimalValue(s: string): int {
    if s == [] then 0 else 10 * DecimalValue(s[..|s| - 1]) + (s[|s| - 1] as int - '0' as int)
  }

  /** The text `NatToString` produces spells `n` back. */
  lemma {:induction false} NatToStringValue(n: nat)
    ensures DecimalValue(NatToString(n)) == n
    decreases n
  {
    var s := NatToString(n);
    if n >= 10 {
      assert s[..|s| - 1] == NatToString(n / 10);
      NatToStringValue(n / 10);
    }
  }

  /** Distinct integers render as distinct strings, so integer-keyed clients never share a key. */
  lemma {:induction false} NatToStringInjective(a: nat, b: nat)
    ensures NatToString(a) == NatToString(b) ==> a == b
  {
    if NatToString(a) == NatToString(b) {
      var s := NatToString(a);
      if a < 10 && b < 10 {
        assert s[0] == Digit(a) && s[0] == Digit(b);
      } else if a >= 10 && b >= 10 {
        var pa, pb := NatToString(a / 10), NatToString(b / 10);
        assert s == pa + [Digit(a % 10)] && s == pb + [Digit(b % 10)];
        assert Digit(a % 10) == s[|s| - 1] == Digit(b % 10);
        assert pa == s[..|s| - 1] == pb;
        NatToStringInjective(a / 10, b / 10);
      }
    }
  }
}
