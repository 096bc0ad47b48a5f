// Idempotency keys as they are sent, and the checks of a batch item before the store
// (panda_trace/store.py, panda_trace/routes_logs.py).
module SentKeys {
  import opened Base
  import opened Text
  import opened Records
  import opened Ids
  import opened StoreModel
  import opened StoreInvariant
  import opened StoreSteps
  import opened ExactlyOnce
  import Batch
  import Redaction

  // The call is made under the key: the header's if there is one, else the one in the body.
  predicate SentUnder(header: Option<string>, body: Option<string>, key: string) {
    && key != ""
    && if header.None? || header.value == "" then body == Some(key) else header == Some(key)
  }

  lemma SentUnderIff(header: Option<string>, log: LogCreate, key: string)
    ensures SentUnder(header, log.idempotencyKey, key)
            <==> key != "" && EffectiveKey(header, log) == Some(key)
  {
  }

  // Once a call under a key has succeeded, every later call under it by that API key gets the same log and
  // changes nothing, whether either key came in the header or in the body.
  lemma SameKeySameLog(commands: seq<Command>, more: seq<Command>, settings: Settings, auth: Auth, log: LogCreate,
                       header: Option<string>, arrival: Arrival, again: Auth, log2: LogCreate,
                       header2: Option<string>, arrival2: Arrival, key: string)
    requires Authenticate(Run(commands, settings), auth.key.id) == Some(auth) && again.key.id == auth.key.id
    requires SentUnder(header, log.idempotencyKey, key) && SentUnder(header2, log2.idempotencyKey, key)
    requires IngestLog(Run(commands, settings), auth, log, header, arrival, settings).1.Ok?
    ensures var r := IngestLog(Run(commands, settings), auth, log, header, arrival, settings).1;
            var u := Run(commands + [Ingest(auth.key.id, log, header, arrival)] + more, settings);
            IngestLog(u, again, log2, header2, arrival2, settings) == (u, r)
  {
    SentUnderIff(header, log, key);
    SentUnderIff(header2, log2, key);
    hide Run, IngestLog, Authenticate, EffectiveKey;
    ReplayForever(commands, more, settings, auth, log, header, arrival, again, log2, header2, arrival2);
  }

  // A call under a key that this API key has not used gets a log of its own if it succeeds.
  lemma NewKeyNewLog(s: State, auth: Auth, log: LogCreate, header: Option<string>, arrival: Arrival,
                     settings: Settings, key: string)
    requires Inv(s) && SentUnder(header, log.idempotencyKey, key) && (auth.key.id, key) !in s.idempotency
    ensures var (t, r) := IngestLog(s, auth, log, header, arrival, settings);
            r.Ok? ==> && r.value.id !in s.logs.at && t.logs.order == s.logs.order + [r.value.id]
                      && t.idempotency == s.idempotency[(auth.key.id, key) := r.value.id]
  {
    SentUnderIff(header, log, key);
    IngestTables(s, auth, log, header, arrival, settings);
    IngestCases(s, auth, log, header, arrival, settings);
    hide IngestLog, Inv, EffectiveKey, AcceptedRecord, ChargeOf, StoreRecord, NextId, ResolveProjectSource;
  }

  // The key of item i of a batch: the batch key, a colon and the index; none without a batch key.
  lemma ItemKeys()
    ensures BatchItemKey("k", 0) == "k:0" && BatchItemKey("nightly", 12) == "nightly:12"
    ensures forall i :: Batch.ItemKey(None, i) == None && Batch.ItemKey(Some(""), i) == None
    ensures Decimal(1234567890) == "1234567890"
  {
    DecimalDigits();
  }

  lemma DecimalDigits()
    ensures Decimal(0) == "0" && Decimal(12) == "12" && Decimal(1234567890) == "1234567890"
  {
    assert Decimal(1) == "1";
    assert Decimal(12) == Decimal(1) + "2";
    assert Decimal(123) == Decimal(12) + "3";
    assert Decimal(1234) == Decimal(123) + "4";
    assert Decimal(12345) == Decimal(1234) + "5";
    assert Decimal(123456) == Decimal(12345) + "6";
    assert Decimal(1234567) == Decimal(123456) + "7";
    assert Decimal(12345678) == Decimal(1234567) + "8";
    assert Decimal(123456789) == Decimal(12345678) + "9";
    assert Decimal(1234567890) == Decimal(123456789) + "0";
  }

  // An identifier is its prefix, an underscore and the counter in at least eight digits.
  lemma IdentifierForm(prefix: string, counter: nat) returns (digits: string)
    ensures MakeId(prefix, counter) == prefix + "_" + digits
    ensures AllDigits(digits) && |digits| >= 8 && ParseDigits(digits) == counter
    ensures |digits| > 8 ==> digits == Decimal(counter)
  {
    digits := PadZeros(Decimal(counter), 8);
    PaddedValue(Decimal(counter), 8);
    PaddedWidth(Decimal(counter), 8);
    ParseDecimal(counter);
  }

  lemma {:induction false} PaddedWidth(s: string, width: nat)
    requires AllDigits(s)
    ensures |PadZeros(s, width)| == if |s| < width then width else |s|
    decreases width - |s|
  {
    if |s| < width {
      PaddedWidth("0" + s, width);
    }
  }

  // An item reaches the store redacted, and exactly if the mode is known and its redacted size is allowed.
  lemma PreparedIff(item: LogCreate, config: Batch.Config)
    ensures var redacted := Redaction.ApplyRedaction(item, config.redactionMode);
            && (Batch.Prepare(item, config).Ok? <==> redacted.Ok? && config.size(redacted.value) <= config.maxLogBytes)
            && (Batch.Prepare(item, config).Ok? ==> Batch.Prepare(item, config) == redacted)
            && (redacted.Ok? && Batch.Prepare(item, config).Err? ==>
                  Batch.Prepare(item, config) == Err(PayloadTooLarge))
  {
    hide Redaction.ApplyRedaction;
  }
}
