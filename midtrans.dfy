/**
 * The webhook signature gate of src/middleware/midtrans.js: the notification passes
 * when the hex SHA-512 digest (FIPS 180-4) of order_id, status_code, gross_amount
 * and the server key, joined without separators, equals its signature_key.
 * The digest is a parameter of the model.
 */
module MidtransSignature {
  import opened Wrappers

  /** The fields of a webhook body that the gate reads; an absent one is `undefined`. */
  datatype Notification = Notification(
    order_id: Option<string>,
    status_code: Option<string>,
    gross_amount: Option<string>,
    signature_key: Option<string>)

  /** What JavaScript's `+` can produce from strings and `undefined`. */
  datatype Prim = Undefined | NaN | Str(s: string)

  function Lift(o: Option<string>): Prim {
    if o.Some? then Str(o.value) else Undefined
  }

  function ToText(p: Prim): string {
    match p
    case Undefined => "undefined"
    case NaN => "NaN"
    case Str(s) => s
  }

  /** `a + b`: concatenation when either side is a string, numeric addition (NaN) otherwise. */
  function Plus(a: Prim, b: Prim): (r: Prim)
    ensures r.Str? <==> a.Str? || b.Str?
    ensures !a.Str? && !b.Str? ==> r == NaN
    ensures a.Str? || b.Str? ==> r == Str(ToText(a) + ToText(b))
    ensures a.Str? && b.Str? ==> r == Str(a.s + b.s)
  {
    if a.Str? || b.Str? then Str(ToText(a) + ToText(b)) else NaN
  }

  /** `order_id + status_code + gross_amount + serverKey`, evaluated left to right. */
  function Raw(n: Notification, serverKey: Option<string>): (r: Prim)
    ensures r.NaN? <==> n.order_id == n.status_code == n.gross_amount == serverKey == None
    ensures !r.Undefined?
    ensures n.order_id.Some? && n.status_code.Some? && n.gross_amount.Some? && serverKey.Some? ==>
      r == Str(n.order_id.value + n.status_code.value + n.gross_amount.value + serverKey.value)
  {
    Plus(Plus(Plus(Lift(n.order_id), Lift(n.status_code)), Lift(n.gross_amount)), Lift(serverKey))
  }

  /** Pass calls `next`; Reject is the 403 body; Throws is the hash refusing a non-string. */
  datatype Gate = Pass | Reject(success: bool, message: string) | Throws

  const InvalidSignature := "Invalid midtrans signature"

  /** `verify`: the body is only read; the gate's one effect is the outcome. */
  function Verify(n: Notification, serverKey: Option<string>, sha512Hex: string -> string): (g: Gate)
    ensures g.Throws? <==> n.order_id == n.status_code == n.gross_amount == serverKey == None
    ensures g == Pass <==> Raw(n, serverKey).Str? && n.signature_key == Some(sha512Hex(Raw(n, serverKey).s))
    ensures g.Reject? ==> g == Reject(false, InvalidSignature)
    ensures n.order_id.Some? && n.status_code.Some? && n.gross_amount.Some? && serverKey.Some? ==>
      (g == Pass <==>
         n.signature_key == Some(sha512Hex(n.order_id.value + n.status_code.value + n.gross_amount.value + serverKey.value)))
  {
    var raw := Raw(n, serverKey);
    if raw.NaN? then Throws
    else if n.signature_key != Some(sha512Hex(ToText(raw))) then Reject(false, InvalidSignature)
    else Pass
  }
}
