# WayForPay client: request preparation

This project models the request-preparing core of the WayForPay JavaScript
client (`wayforpay.js`). A client object is built from a merchant account
and password. Its `_prepare(action, params)` works on the caller's own field
object, in place:

1. it records the action in `this._action`;
2. it throws when the argument is falsy or its `length` is `0`;
3. it writes `transactionType` and `merchantAccount`;
4. it signs the fields as they stand at that point and stores the result in `merchantSignature`;
5. it adds `apiVersion = 1` unless the action is `PURCHASE`;
6. it hands the object to `_checkFields`.

`_checkFields` writes `merchant_account`. It then tests nine fields for
JavaScript truthiness, in a fixed order, and throws on the first falsy one.
When all nine pass it returns `true`, and `_prepare` stores that `true` in
`this._params`. `generatePurchaseUrl` prepares in `PURCHASE` mode.

Files:

- `jsvalues.dfy` (module `JsValues`): JavaScript values and their truthiness.
  It also has the string conversion `Array.prototype.join` applies to each
  element, `join`, and `split` as its partner.
- `jsobjects.dfy` (module `JsObjects`): a plain object kept as its own
  properties in insertion order. It defines property read and property
  write, and class `Dict`, the caller's object that is shared by reference.
- `wayforpay.dfy` (module `WayForPay`):
  - class `Client` with `Prepare`, `CheckFields`, `BuildSignature` and `GeneratePurchaseUrl`;
  - the pure functions that say what preparation produces (`Stamped`, `Versioned`, `Prepared`, `PrepareStatus`, `Validate`);
  - the lemmas about those functions.

Modelling choices:

- A falsy `params` argument is `null`. The caller's object is a `Dict`. The
  model mutates that `Dict` itself, and `Client.params` holds it until the
  validator returns. On success `Client.params` becomes `Flag(true)`; when
  the validator throws it still refers to the caller's object.
- A thrown error is a `Status` (`Returned` or `Threw(error)`) returned by the
  method, and the state reached before the throw is kept. The error says
  which check failed (`EmptyArguments` or `MissingField(name)`). It does not
  carry the message text.
- HMAC-MD5 is a function-valued part of the merchant credentials
  (`Merchant.hmac`), applied as `hmac(key, message)`. The code keys it with the
  joined field values and feeds it the merchant password, and the model
  keeps exactly that order. A description of the vendor's scheme gives the
  reverse (key = password, message = joined values); this model follows the code.
- `0 === params.length` is modelled as it behaves on a plain object: it holds
  only when the object has a property named `length` whose value is the
  number 0. So an empty object `{}` is not rejected at this step, although a
  description of the library says empty field sets are. It then fails in
  the validator: on `merchantAccount` when the client's account is empty,
  and otherwise on `merchantDomainName`.
- The validator reports only the first falsy field, as the code does, not the
  list of all missing fields.
- The constructor checks nothing, as in the code.

Places where the code cannot run as written and the model follows what it evidently means:

- `$this._buildSignature` (wayforpay.js:71) is read as `this._buildSignature`.
- `$this._params` (wayforpay.js:81) is read as `this._params`.
- `params.join(';')` (wayforpay.js:133) is read as joining the object's values
  (`Object.values(params)`, insertion order) with `;`. A plain object has no
  `join` method.
- wayforpay.js:81 concatenates with `.`, which is a syntax error in
  JavaScript. Only its `_prepare(MODE_PURCHASE, params)` call on line 79 is modelled.

## Model

| member | source | states |
|---|---|---|
| `WayForPay.Client.constructor` | wayforpay.js:30 | the client keeps the account, password and HMAC it is given; `_action` and `_params` start unset |
| `WayForPay.Client.Prepare` | wayforpay.js:62-75 | `_action` is always set first; a falsy argument, or one whose `length` is 0, throws `EmptyArguments` and leaves the object untouched; otherwise the caller's object becomes `Prepared(...)` of its old fields, the call throws or returns as the validator decides, and `_params` ends as `true` on return and as the caller's object after a throw |
| `WayForPay.Client.CheckFields` | wayforpay.js:94-121 | writes `merchant_account` and nothing else; its verdict is `Validate` of the fields, the same before and after that write; it succeeds, with `true`, iff all nine required fields are truthy, and otherwise throws naming the first falsy one in the order merchantAccount … productPrice |
| `WayForPay.Client.GeneratePurchaseUrl` | wayforpay.js:77-82 | sets `_action` to `PURCHASE`; a falsy argument throws `EmptyArguments` and leaves `_params` as it was; an object whose `length` is 0 throws `EmptyArguments` and leaves both the object and `_params` untouched; otherwise the object becomes its purchase-mode preparation, the caller's `apiVersion` (present or absent) is left exactly as it was, and `_params` ends as `true` on return and as the caller's object after a throw |
| `WayForPay.Client.BuildSignature` | wayforpay.js:131-140 | the signature is the HMAC whose key is the object's values joined with `;` in insertion order and whose message is the merchant password; when the object is non-empty and no value renders with a `;`, that key splits back into exactly those values' strings, in order |
| `WayForPay.CheckFromFirstFalsy` | wayforpay.js:98-115 | a run of presence checks fails iff some tested field is falsy, fails on the first falsy one in order, and yields `true` otherwise |
| `WayForPay.ValidateFailsOnFirstFalsy` | wayforpay.js:98-119 | the validator throws iff one of the nine required fields is falsy, naming the first falsy one in the order merchantAccount … productPrice; otherwise it returns `true` |
| `WayForPay.ValidateIgnoresOtherKeys` | wayforpay.js:96-119 | writing a key outside the nine (`merchantSignature`, `merchant_account`, `apiVersion` among them) never changes the validator's verdict |
| `WayForPay.PrepareThrowsOnMissingField` | wayforpay.js:69-74 | in terms of the caller's input, preparation throws iff the client's account is empty or one of the other eight required fields is falsy; an empty account is reported as `merchantAccount` |
| `WayForPay.PreparedRequiredReads` | wayforpay.js:96-115 | in a prepared field set the validator sees the client's account under `merchantAccount` and the caller's own values of the other eight required fields |
| `WayForPay.PreparedStampsAndSignature` | wayforpay.js:69-71 | after preparation `transactionType` is the action, `merchantAccount` and `merchant_account` are the client's account, and `merchantSignature` is `hmac(join(values after the two stamps, ";"), password)` |
| `WayForPay.SignatureInputPrecedesVersion` | wayforpay.js:69-73 | the signed fields hold the action and the account and only the caller's own `apiVersion` and `merchantSignature`: the values added later are not signed |
| `WayForPay.PreparedAfterStamps` | wayforpay.js:71-74 | the writes after signing change only `merchantSignature`, `apiVersion` and `merchant_account` |
| `WayForPay.ApiVersionOutsidePurchase` | wayforpay.js:73 | after preparation `apiVersion` is 1 when the action is not `PURCHASE`; in `PURCHASE` mode it is whatever the caller supplied, absent included |
| `WayForPay.PreparedKeepsCallerKeys` | wayforpay.js:68-74 | every key except the five preparation writes reads exactly as the caller left it |
| `WayForPay.PreparedKeepsPositions` | wayforpay.js:68-74 | preparation keeps the object's keys distinct and every caller entry with a non-derived key at its original position |
| `WayForPay.SignatureInputOrder` | wayforpay.js:69-70 | the signed object is exactly the caller's entries in order, with an existing `transactionType` or `merchantAccount` entry replaced in place by the action or the account; a missing `transactionType` is appended first and a missing `merchantAccount` after it, and the length grows by one per missing stamp |
| `WayForPay.SignatureInputAppendsStamps` | wayforpay.js:69-70 | when the caller supplied neither stamp, the signed object is the caller's entries followed by `transactionType` = action and then `merchantAccount` = account |
| `WayForPay.KeySplitsIntoValues` | wayforpay.js:133 | for a non-empty object none of whose values renders with a `;`, the HMAC key splits on `;` into exactly the rendered values in order |
| `WayForPay.SignatureKeySplits` | wayforpay.js:133 | when no signed value renders with a `;`, splitting the HMAC key on `;` gives back exactly the signed values' strings in order |
| `JsValues.SplitJoin` | wayforpay.js:133 | joining pieces with a one-character separator that none contains is undone by splitting on it |
| `JsValues.NatToStringRoundTrip` | wayforpay.js:133 | the decimal text of a non-negative numeric field value reads back as that number |
| `JsValues.NumberStringRoundTrip` | wayforpay.js:133 | the text any integer field value, negative ones included, contributes to the join is a decimal numeral that reads back as that number |
| `JsObjects.AssignLookup` | wayforpay.js:69-73 | a property write makes the key read the new value and leaves every other key as it was |
| `JsObjects.AssignInPlace` | wayforpay.js:69-73 | a property write keeps an existing key at its position and appends a new key last; every other entry stays where it was |
| `JsObjects.AssignKeys` | wayforpay.js:69-73 | after a property write the object has the written key and exactly the keys it had before |
| `JsObjects.LookupPresent` | wayforpay.js:98-115 | a property is found iff the object has that key |
| `JsObjects.LookupFinds` | wayforpay.js:98-115 | in an object with distinct keys, the value found under a key is the one stored under it (presence as `LookupPresent` states it) |

## Left out

- `this.api` (wayforpay.js:46-59): an HTTP POST with JSON encoding and callbacks. This is network I/O.
- HMAC-MD5 (wayforpay.js:134-136): a foreign cryptographic call. It is the parameter `Merchant.hmac`, and nothing is assumed about it.
- The URL that `generatePurchaseUrl` returns (wayforpay.js:81). It comes from the foreign `http_build_query`, and the line does not parse. The model's `GeneratePurchaseUrl` returns only how preparation ended.
- The text of the thrown error messages, which name the wrong fields in the code. Only the failing check is modelled.
- JavaScript numbers are integers here: fractions, `NaN` and infinities are not modelled, and neither is their string form in the join.
- Numbers are unbounded integers. JavaScript holds integers above 2^53 only approximately, and renders numbers of 1e21 and more in exponent form (`1e+21`) in the join; the model renders every integer exactly in plain decimal.
- There is no plain-object variant of `Value`. A field whose value is a nested object would join as `[object Object]`; the model's field values are primitives and arrays only.
- JavaScript puts integer-like keys (`"0"`, `"1"`, …) before the other keys of an object. That ordering is not modelled; all keys are kept in insertion order.
- Arguments that are arrays, strings or non-falsy primitives are not modelled. Only a plain object or a falsy value is passed.
- The per-transaction-type signature-field and required-field tables, and the other operations (settle, charge, refund, …), are not part of this model. The modelled code does not contain them.
