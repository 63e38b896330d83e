/** The WayForPay client object: preparing a payment request in the
    caller's own field dictionary (stamping the transaction type and the
    merchant account, signing, adding the API version) and the presence
    checks that follow. */
module WayForPay {
  import opened JsValues
  import opened JsObjects

  const ModePurchase: string := "PURCHASE"
  const ApiVersion: int := 1

  /** The fields the validator requires, in the order it tests them. */
  const RequiredFields: seq<string> := [
    "merchantAccount", "merchantDomainName", "orderReference", "orderDate",
    "amount", "currency", "productName", "productCount", "productPrice"
  ]

  /** The keys that preparation writes; every other key is the caller's. */
  const DerivedKeys: set<string> := {
    "transactionType", "merchantAccount", "merchantSignature", "apiVersion", "merchant_account"
  }

  /** `crypto.createHmac('md5', key).update(message).digest('hex')`, taken as
      given: its arguments are, in order, the key and the message. */
  type Hmac = (string, string) -> string

  /** The credentials the client closes over. */
  datatype Merchant = Merchant(account: string, password: string, hmac: Hmac)

  /** What is thrown: the empty-arguments error, or which presence check failed. */
  datatype Error = EmptyArguments | MissingField(name: string)

  datatype Result<T> = Success(value: T) | Failure(error: Error)

  /** How a call ends: it returns, or it throws. */
  datatype Status = Returned | Threw(error: Error)

  /** What the instance field `_params` holds: nothing yet, the caller's
      object (shared, not copied), or the boolean the validator returned. */
  datatype ParamsSlot = Unset | Fields(dict: Dict) | Flag(b: bool)

  /** The `0 === params.length` test on a plain object: it holds only when
      the object has a property `length` whose value is the number 0. */
  predicate ZeroLength(e: seq<Entry>) {
    Read(e, "length") == Num(0)
  }

  /** The signature of a field set: the HMAC keyed with the object's values
      joined by ";", over the merchant's password. */
  function Signature(m: Merchant, e: seq<Entry>): string {
    m.hmac(SignatureKey(e), m.password)
  }

  /** The joined values that key the HMAC. */
  function SignatureKey(e: seq<Entry>): string {
    Join(Values(e), ";")
  }

  /** The presence checks over `names` from position `i` on, first falsy
      one wins. */
  function CheckFrom(e: seq<Entry>, names: seq<string>, i: nat): Result<bool>
    requires i <= |names|
    decreases |names| - i
  {
    if i == |names| then Success(true)
    else if !Truthy(Read(e, names[i])) then Failure(MissingField(names[i]))
    else CheckFrom(e, names, i + 1)
  }

  /** What the validator decides about a field set. */
  function Validate(e: seq<Entry>): Result<bool> {
    CheckFrom(e, RequiredFields, 0)
  }

  /** The field set after the transaction type and the merchant account are
      written: what the signature is computed over. */
  function Stamped(m: Merchant, action: string, e: seq<Entry>): seq<Entry> {
    Assign(Assign(e, "transactionType", Str(action)), "merchantAccount", Str(m.account))
  }

  /** The field set after signing and, outside purchase mode, the API version. */
  function Versioned(m: Merchant, action: string, e: seq<Entry>): seq<Entry> {
    var stamped := Stamped(m, action, e);
    var signed := Assign(stamped, "merchantSignature", Str(Signature(m, stamped)));
    if action != ModePurchase then Assign(signed, "apiVersion", Num(ApiVersion)) else signed
  }

  /** The caller's field set once preparation has run (whether the
      validator then throws or not). */
  function Prepared(m: Merchant, action: string, e: seq<Entry>): seq<Entry> {
    Assign(Versioned(m, action, e), "merchant_account", Str(m.account))
  }

  /** How preparation ends for arguments that pass the emptiness test. */
  function PrepareStatus(m: Merchant, action: string, e: seq<Entry>): Status {
    match Validate(Prepared(m, action, e))
    case Success(_) => Returned
    case Failure(err) => Threw(err)
  }

  // ---------------------------------------------------------------------
  // The validator

  /** `names[k]` is the first falsy field among `names[i..]`. */
  ghost predicate FirstFalsyAt(e: seq<Entry>, names: seq<string>, i: int, k: int) {
    && 0 <= i <= k < |names|
    && !Truthy(Read(e, names[k]))
    && forall j :: i <= j < k ==> Truthy(Read(e, names[j]))
  }

  lemma {:induction false} CheckFromFirstFalsy(e: seq<Entry>, names: seq<string>, i: nat)
    requires i <= |names|
    ensures CheckFrom(e, names, i).Failure? <==> exists k :: i <= k < |names| && !Truthy(Read(e, names[k]))
    ensures CheckFrom(e, names, i).Success? ==> CheckFrom(e, names, i).value
    ensures forall k :: FirstFalsyAt(e, names, i, k) ==> CheckFrom(e, names, i) == Failure(MissingField(names[k]))
    ensures CheckFrom(e, names, i).Failure? ==>
              exists k :: FirstFalsyAt(e, names, i, k) && CheckFrom(e, names, i) == Failure(MissingField(names[k]))
    decreases |names| - i
  {
    if i < |names| {
      CheckFromFirstFalsy(e, names, i + 1);
      if !Truthy(Read(e, names[i])) {
        assert FirstFalsyAt(e, names, i, i);
      } else if CheckFrom(e, names, i).Failure? {
        var k :| FirstFalsyAt(e, names, i + 1, k) && CheckFrom(e, names, i + 1) == Failure(MissingField(names[k]));
        assert FirstFalsyAt(e, names, i, k);
      }
    }
  }

  /** The validator fails exactly when one of the nine required fields is
      falsy, and then the failure names the first falsy one in test order;
      otherwise it yields `true`. */
  lemma ValidateFailsOnFirstFalsy(e: seq<Entry>)
    ensures Validate(e).Failure? <==> exists i :: 0 <= i < |RequiredFields| && !Truthy(Read(e, RequiredFields[i]))
    ensures Validate(e).Success? ==> Validate(e).value
    ensures forall i :: FirstFalsyAt(e, RequiredFields, 0, i) ==> Validate(e) == Failure(MissingField(RequiredFields[i]))
    ensures Validate(e).Failure? ==>
              exists i :: FirstFalsyAt(e, RequiredFields, 0, i) && Validate(e) == Failure(MissingField(RequiredFields[i]))
  {
    CheckFromFirstFalsy(e, RequiredFields, 0);
  }

  /** Writing a key the validator does not test (the signature among them)
      never changes its verdict. */
  lemma {:induction false} CheckFromIgnoresOtherKeys(e: seq<Entry>, names: seq<string>, i: nat, k: string, v: Value)
    requires i <= |names|
    requires k !in names
    ensures CheckFrom(Assign(e, k, v), names, i) == CheckFrom(e, names, i)
    decreases |names| - i
  {
    if i < |names| {
      AssignLookup(e, k, v, names[i]);
      CheckFromIgnoresOtherKeys(e, names, i + 1, k, v);
    }
  }

  lemma ValidateIgnoresOtherKeys(e: seq<Entry>, k: string, v: Value)
    requires k !in RequiredFields
    ensures Validate(Assign(e, k, v)) == Validate(e)
  {
    CheckFromIgnoresOtherKeys(e, RequiredFields, 0, k, v);
  }

  // ---------------------------------------------------------------------
  // Preparation, as a function of the caller's fields

  /** What is written after signing (the signature, the API version and
      `merchant_account`) leaves every other key as the signature saw it. */
  lemma PreparedAfterStamps(m: Merchant, action: string, e: seq<Entry>, k: string)
    requires k != "merchantSignature" && k != "apiVersion" && k != "merchant_account"
    ensures Lookup(Prepared(m, action, e), k) == Lookup(Stamped(m, action, e), k)
  {
    var s := Stamped(m, action, e);
    var signed := Assign(s, "merchantSignature", Str(Signature(m, s)));
    AssignLookup(s, "merchantSignature", Str(Signature(m, s)), k);
    AssignLookup(signed, "apiVersion", Num(ApiVersion), k);
    AssignLookup(Versioned(m, action, e), "merchant_account", Str(m.account), k);
  }

  /** Every key of a prepared field set that preparation does not write reads
      as the caller left it. */
  lemma PreparedKeepsCallerKeys(m: Merchant, action: string, e: seq<Entry>, k: string)
    requires k !in DerivedKeys
    ensures Lookup(Prepared(m, action, e), k) == Lookup(e, k)
  {
    PreparedAfterStamps(m, action, e, k);
    AssignLookup(e, "transactionType", Str(action), k);
    AssignLookup(Assign(e, "transactionType", Str(action)), "merchantAccount", Str(m.account), k);
  }

  /** A prepared field set carries the action as its transaction type and
      the client's account under both `merchantAccount` and
      `merchant_account`; its signature is the HMAC keyed with the values
      as they stood right after those two were written. */
  lemma PreparedStampsAndSignature(m: Merchant, action: string, e: seq<Entry>)
    ensures Lookup(Prepared(m, action, e), "transactionType") == Some(Str(action))
    ensures Lookup(Prepared(m, action, e), "merchantAccount") == Some(Str(m.account))
    ensures Lookup(Prepared(m, action, e), "merchant_account") == Some(Str(m.account))
    ensures Lookup(Prepared(m, action, e), "merchantSignature")
         == Some(Str(m.hmac(Join(Values(Stamped(m, action, e)), ";"), m.password)))
  {
    var s := Stamped(m, action, e);
    var sig := Str(Signature(m, s));
    var signed := Assign(s, "merchantSignature", sig);
    SignatureInputPrecedesVersion(m, action, e);
    PreparedAfterStamps(m, action, e, "transactionType");
    PreparedAfterStamps(m, action, e, "merchantAccount");
    AssignLookup(Versioned(m, action, e), "merchant_account", Str(m.account), "merchant_account");
    AssignLookup(s, "merchantSignature", sig, "merchantSignature");
    AssignLookup(signed, "apiVersion", Num(ApiVersion), "merchantSignature");
    AssignLookup(Versioned(m, action, e), "merchant_account", Str(m.account), "merchantSignature");
  }

  /** The signature is computed before the API version is added: the input
      it is keyed with holds the action and the account, and the caller's
      own `apiVersion` and `merchantSignature` (if any), never the added ones. */
  lemma SignatureInputPrecedesVersion(m: Merchant, action: string, e: seq<Entry>)
    ensures Lookup(Stamped(m, action, e), "transactionType") == Some(Str(action))
    ensures Lookup(Stamped(m, action, e), "merchantAccount") == Some(Str(m.account))
    ensures Lookup(Stamped(m, action, e), "apiVersion") == Lookup(e, "apiVersion")
    ensures Lookup(Stamped(m, action, e), "merchantSignature") == Lookup(e, "merchantSignature")
  {
    var s1 := Assign(e, "transactionType", Str(action));
    AssignLookup(e, "transactionType", Str(action), "transactionType");
    AssignLookup(e, "transactionType", Str(action), "apiVersion");
    AssignLookup(e, "transactionType", Str(action), "merchantSignature");
    AssignLookup(s1, "merchantAccount", Str(m.account), "transactionType");
    AssignLookup(s1, "merchantAccount", Str(m.account), "merchantAccount");
    AssignLookup(s1, "merchantAccount", Str(m.account), "apiVersion");
    AssignLookup(s1, "merchantAccount", Str(m.account), "merchantSignature");
  }

  /** The signature input exactly: each stamp replaces the caller's value
      in place when its key is already present; otherwise it is appended,
      `transactionType` before `merchantAccount`; nothing else is added and
      every other entry keeps its position. */
  lemma SignatureInputOrder(m: Merchant, action: string, e: seq<Entry>)
    requires DistinctKeys(e)
    ensures |Stamped(m, action, e)|
         == |e| + (if "transactionType" in Keys(e) then 0 else 1) + (if "merchantAccount" in Keys(e) then 0 else 1)
    ensures forall i :: 0 <= i < |e| ==>
              Stamped(m, action, e)[i]
              == if e[i].0 == "transactionType" then ("transactionType", Str(action))
                 else if e[i].0 == "merchantAccount" then ("merchantAccount", Str(m.account))
                 else e[i]
    ensures "transactionType" !in Keys(e) ==> Stamped(m, action, e)[|e|] == ("transactionType", Str(action))
    ensures "merchantAccount" !in Keys(e) ==>
              Stamped(m, action, e)[|e| + (if "transactionType" in Keys(e) then 0 else 1)]
              == ("merchantAccount", Str(m.account))
  {
    var tt, ma := "transactionType", "merchantAccount";
    var s1 := Assign(e, tt, Str(action));
    AssignInPlace(e, tt, Str(action));
    AssignKeepsDistinct(e, tt, Str(action));
    AssignInPlace(s1, ma, Str(m.account));
    AssignKeys(e, tt, Str(action), ma);
  }

  /** When the caller supplied neither stamp, the signature input is the
      caller's entries followed by `transactionType` and then `merchantAccount`. */
  lemma SignatureInputAppendsStamps(m: Merchant, action: string, e: seq<Entry>)
    requires DistinctKeys(e)
    requires "transactionType" !in Keys(e) && "merchantAccount" !in Keys(e)
    ensures Stamped(m, action, e) == e + [("transactionType", Str(action)), ("merchantAccount", Str(m.account))]
  {
    SignatureInputOrder(m, action, e);
    var st := Stamped(m, action, e);
    var want := e + [("transactionType", Str(action)), ("merchantAccount", Str(m.account))];
    forall i | 0 <= i < |st| ensures st[i] == want[i] {
      if i < |e| {
        assert Keys(e)[i] == e[i].0;
      }
    }
  }

  /** Preparation keeps the caller's own entries where they were: each one
      with a key preparation does not write is still at its position, and
      the keys stay distinct. */
  lemma PreparedKeepsPositions(m: Merchant, action: string, e: seq<Entry>)
    requires DistinctKeys(e)
    ensures DistinctKeys(Prepared(m, action, e))
    ensures |Prepared(m, action, e)| >= |e|
    ensures forall i :: 0 <= i < |e| && e[i].0 !in DerivedKeys ==> Prepared(m, action, e)[i] == e[i]
  {
    var s1 := Assign(e, "transactionType", Str(action));
    var s := Stamped(m, action, e);
    var signed := Assign(s, "merchantSignature", Str(Signature(m, s)));
    AssignKeepsOthers(e, "transactionType", Str(action));
    AssignKeepsOthers(s1, "merchantAccount", Str(m.account));
    AssignKeepsOthers(s, "merchantSignature", Str(Signature(m, s)));
    AssignKeepsOthers(signed, "apiVersion", Num(ApiVersion));
    AssignKeepsOthers(Versioned(m, action, e), "merchant_account", Str(m.account));
  }

  /** When no value of a non-empty object renders with a `;`, its HMAC key
      splits on `;` back into exactly the values' strings, in order. */
  lemma KeySplitsIntoValues(e: seq<Entry>)
    requires |e| >= 1
    requires forall i :: 0 <= i < |e| ==> ';' !in ElemString(e[i].1)
    ensures Split(SignatureKey(e), ';') == ElemStrings(Values(e))
  {
    SplitJoin(ElemStrings(Values(e)), ';');
  }

  /** When no value of the signature input renders with a ";", the HMAC key
      can be split back into exactly those values' strings, in order. */
  lemma SignatureKeySplits(m: Merchant, action: string, e: seq<Entry>)
    requires forall i :: 0 <= i < |Stamped(m, action, e)| ==> ';' !in ElemString(Stamped(m, action, e)[i].1)
    ensures Split(SignatureKey(Stamped(m, action, e)), ';') == ElemStrings(Values(Stamped(m, action, e)))
  {
    var s := Stamped(m, action, e);
    var s1 := Assign(e, "transactionType", Str(action));
    AssignLookup(s1, "merchantAccount", Str(m.account), "merchantAccount");
    KeySplitsIntoValues(s);
  }

  /** `apiVersion` is 1 after preparation exactly outside purchase mode; in
      purchase mode the key is as the caller supplied it, absent included. */
  lemma ApiVersionOutsidePurchase(m: Merchant, action: string, e: seq<Entry>)
    ensures Lookup(Prepared(m, action, e), "apiVersion")
         == if action != ModePurchase then Some(Num(ApiVersion)) else Lookup(e, "apiVersion")
  {
    var s := Stamped(m, action, e);
    var s1 := Assign(e, "transactionType", Str(action));
    var signed := Assign(s, "merchantSignature", Str(Signature(m, s)));
    AssignLookup(Versioned(m, action, e), "merchant_account", Str(m.account), "apiVersion");
    AssignLookup(signed, "apiVersion", Num(ApiVersion), "apiVersion");
    AssignLookup(s, "merchantSignature", Str(Signature(m, s)), "apiVersion");
    SignatureInputPrecedesVersion(m, action, e);
  }

  /** Of the fields the validator tests, only the first is written by
      preparation. */
  lemma OnlyAccountIsDerived()
    ensures RequiredFields[0] in DerivedKeys
    ensures forall i :: 1 <= i < |RequiredFields| ==> RequiredFields[i] !in DerivedKeys
  {
  }

  /** What the validator reads in a prepared field set: the client's
      account, then the caller's own values of the other eight fields. */
  lemma PreparedRequiredReads(m: Merchant, action: string, e: seq<Entry>)
    ensures Read(Prepared(m, action, e), "merchantAccount") == Str(m.account)
    ensures forall i :: 1 <= i < |RequiredFields| ==>
              Read(Prepared(m, action, e), RequiredFields[i]) == Read(e, RequiredFields[i])
  {
    PreparedStampsAndSignature(m, action, e);
    OnlyAccountIsDerived();
    forall k | k !in DerivedKeys
      ensures Read(Prepared(m, action, e), k) == Read(e, k)
    {
      PreparedKeepsCallerKeys(m, action, e, k);
    }
  }

  /** Preparation in terms of the caller's input: it throws exactly when the
      client's account is empty or one of the other eight required fields
      the caller supplied is falsy; an empty account is reported first. */
  lemma PrepareThrowsOnMissingField(m: Merchant, action: string, e: seq<Entry>)
    ensures PrepareStatus(m, action, e).Threw?
        <==> m.account == "" || exists i :: 1 <= i < |RequiredFields| && !Truthy(Read(e, RequiredFields[i]))
    ensures m.account == "" ==> PrepareStatus(m, action, e) == Threw(MissingField("merchantAccount"))
  {
    var p := Prepared(m, action, e);
    PreparedRequiredReads(m, action, e);
    ValidateFailsOnFirstFalsy(p);
    assert RequiredFields[0] == "merchantAccount";
  }

  // ---------------------------------------------------------------------
  // The client object

  class Client {
    const merchant: Merchant
    /** `this._action`: undefined until the first call to `Prepare`. */
    var action: Value
    /** `this._params` */
    var params: ParamsSlot

    constructor (account: string, password: string, hmac: Hmac)
      ensures merchant == Merchant(account, password, hmac)
      ensures action == Undefined && params == Unset
    {
      merchant := Merchant(account, password, hmac);
      action := Undefined;
      params := Unset;
    }

    /** `_buildSignature(params)`: the HMAC of the password, keyed with the
        object's values joined by `;`. When the object is non-empty and no
        value renders with a `;`, the key splits back into exactly the
        values' strings, in order. Distinct values with the same string
        (`1` and `"1"`, or `null` and `""`) give the same key. */
    function BuildSignature(p: Dict): (sig: string)
      reads p
      ensures sig == merchant.hmac(Join(Values(p.entries), ";"), merchant.password)
      ensures |p.entries| >= 1 && (forall i :: 0 <= i < |p.entries| ==> ';' !in ElemString(p.entries[i].1)) ==>
                Split(SignatureKey(p.entries), ';') == ElemStrings(Values(p.entries))
    {
      var e := p.entries;
      assert |e| >= 1 && (forall i :: 0 <= i < |e| ==> ';' !in ElemString(e[i].1)) ==>
               Split(SignatureKey(e), ';') == ElemStrings(Values(e)) by {
        if |e| >= 1 && (forall i :: 0 <= i < |e| ==> ';' !in ElemString(e[i].1)) {
          KeySplitsIntoValues(e);
        }
      }
      Signature(merchant, e)
    }

    /** `_checkFields(params)`: records the account under `merchant_account`,
        then tests the nine required fields in order and throws on the first
        falsy one. */
    method CheckFields(p: Dict) returns (r: Result<bool>)
      requires p.Valid()
      modifies p
      ensures p.Valid()
      ensures p.entries == Assign(old(p.entries), "merchant_account", Str(merchant.account))
      ensures r == Validate(p.entries)
      ensures r == Validate(old(p.entries))
      ensures r.Success? ==> r.value
      ensures r.Success? <==> forall i :: 0 <= i < |RequiredFields| ==> Truthy(Read(p.entries, RequiredFields[i]))
      ensures r.Failure? ==>
                exists i :: FirstFalsyAt(p.entries, RequiredFields, 0, i) && r.error == MissingField(RequiredFields[i])
    {
      ValidateIgnoresOtherKeys(p.entries, "merchant_account", Str(merchant.account));
      p.Set("merchant_account", Str(merchant.account));
      ghost var e := p.entries;
      ValidateFailsOnFirstFalsy(e);
      if !Truthy(p.Get("merchantAccount")) { return Failure(MissingField("merchantAccount")); }
      assert CheckFrom(e, RequiredFields, 0) == CheckFrom(e, RequiredFields, 1);
      if !Truthy(p.Get("merchantDomainName")) { return Failure(MissingField("merchantDomainName")); }
      assert CheckFrom(e, RequiredFields, 1) == CheckFrom(e, RequiredFields, 2);
      if !Truthy(p.Get("orderReference")) { return Failure(MissingField("orderReference")); }
      assert CheckFrom(e, RequiredFields, 2) == CheckFrom(e, RequiredFields, 3);
      if !Truthy(p.Get("orderDate")) { return Failure(MissingField("orderDate")); }
      assert CheckFrom(e, RequiredFields, 3) == CheckFrom(e, RequiredFields, 4);
      if !Truthy(p.Get("amount")) { return Failure(MissingField("amount")); }
      assert CheckFrom(e, RequiredFields, 4) == CheckFrom(e, RequiredFields, 5);
      if !Truthy(p.Get("currency")) { return Failure(MissingField("currency")); }
      assert CheckFrom(e, RequiredFields, 5) == CheckFrom(e, RequiredFields, 6);
      if !Truthy(p.Get("productName")) { return Failure(MissingField("productName")); }
      assert CheckFrom(e, RequiredFields, 6) == CheckFrom(e, RequiredFields, 7);
      if !Truthy(p.Get("productCount")) { return Failure(MissingField("productCount")); }
      assert CheckFrom(e, RequiredFields, 7) == CheckFrom(e, RequiredFields, 8);
      if !Truthy(p.Get("productPrice")) { return Failure(MissingField("productPrice")); }
      assert CheckFrom(e, RequiredFields, 8) == CheckFrom(e, RequiredFields, 9);
      return Success(true);
    }

    /** `_prepare(action, params)`: `p == null` stands for a falsy argument.
        The caller's object is changed in place and `_params` refers to it
        until the validator returns, when `_params` takes its `true`. */
    method Prepare(act: string, p: Dict?) returns (status: Status)
      requires p != null ==> p.Valid()
      modifies this, p
      ensures action == Str(act)
      ensures p == null ==> status == Threw(EmptyArguments) && params == old(params)
      ensures p != null ==> p.Valid()
      ensures p != null && ZeroLength(old(p.entries)) ==>
                status == Threw(EmptyArguments) && params == old(params) && p.entries == old(p.entries)
      ensures p != null && !ZeroLength(old(p.entries)) ==>
                && p.entries == Prepared(merchant, act, old(p.entries))
                && status == PrepareStatus(merchant, act, old(p.entries))
                && params == (if status == Returned then Flag(true) else Fields(p))
    {
      action := Str(act);
      if p == null || ZeroLength(p.entries) {
        return Threw(EmptyArguments);
      }
      params := Fields(p);
      p.Set("transactionType", Str(act));
      p.Set("merchantAccount", Str(merchant.account));
      var sig := BuildSignature(p);
      p.Set("merchantSignature", Str(sig));
      if action != Str(ModePurchase) {
        p.Set("apiVersion", Num(ApiVersion));
      }
      var checked := CheckFields(p);
      match checked
      case Failure(err) =>
        return Threw(err);
      case Success(b) =>
        params := Flag(b);
        return Returned;
    }

    /** The preparing half of `generatePurchaseUrl(params)`: always purchase
        mode, so the caller's `apiVersion` is left exactly as it was. */
    method GeneratePurchaseUrl(p: Dict?) returns (status: Status)
      requires p != null ==> p.Valid()
      modifies this, p
      ensures action == Str(ModePurchase)
      ensures p == null ==> status == Threw(EmptyArguments) && params == old(params)
      ensures p != null ==> p.Valid()
      ensures p != null && ZeroLength(old(p.entries)) ==>
                status == Threw(EmptyArguments) && params == old(params) && p.entries == old(p.entries)
      ensures p != null && !ZeroLength(old(p.entries)) ==>
                && p.entries == Prepared(merchant, ModePurchase, old(p.entries))
                && Lookup(p.entries, "apiVersion") == Lookup(old(p.entries), "apiVersion")
                && status == PrepareStatus(merchant, ModePurchase, old(p.entries))
                && params == (if status == Returned then Flag(true) else Fields(p))
    {
      ghost var before := if p == null then [] else p.entries;
      status := Prepare(ModePurchase, p);
      if p != null && !ZeroLength(before) {
        ApiVersionOutsidePurchase(merchant, ModePurchase, before);
      }
    }
  }
}
