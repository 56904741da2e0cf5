/** UTXO discovery of the block-explorer client: list the unspent outputs of an
    address, fetch the raw hex of each output's parent transaction, and build
    one record per output. The HTTP replies are inputs: the listing reply of
    `GET /address/{address}/utxo`, and the reply of `GET /tx/{txid}/hex` as a
    function of the transaction id. */
module BlockExplorer {
  import opened Js
  import SatoshiFormat

  /** The `status` object of a listed output. */
  datatype UtxoStatus = UtxoStatus(confirmed: bool)

  /** One element of the explorer's UTXO listing. `value` is in satoshis. */
  datatype UtxoDescriptor = UtxoDescriptor(txid: string, vout: nat, value: nat, status: UtxoStatus)

  /** A record handed back to the caller. */
  datatype Utxo = Utxo(
    confirmed: bool,
    txid: string,
    index: nat,
    amount: string,
    amountSats: nat,
    transactionHex: string)

  /** A thrown request error, given by its own properties; the HTTP client
      puts the server's reply, when there was one, under `response`. */
  type ErrorObject = map<string, JsValue>

  /** The value rethrown by the `catch` blocks of the client:
      `(e.response && e.response.data) || e`. */
  function NormalizeError(e: ErrorObject): (thrown: JsValue)
    ensures var response := Get(Object(e), "response");
            thrown == if Truthy(response) && Truthy(Get(response, "data"))
                      then Get(response, "data")
                      else Object(e)
    ensures Truthy(thrown)
  {
    var response := Get(Object(e), "response");
    LogicalOr(LogicalAnd(response, Get(response, "data")), Object(e))
  }

  /** `rec` is the record for listed output `utxo` whose parent transaction is `hex`. */
  predicate Describes(rec: Utxo, utxo: UtxoDescriptor, hex: string) {
    && rec.confirmed == utxo.status.confirmed
    && rec.txid == utxo.txid
    && rec.index == utxo.vout
    && rec.amountSats == utxo.value
    && rec.amount == SatoshiFormat.FormatSats(utxo.value)
    && rec.transactionHex == hex
  }

  /** The per-output async callback: await the hex reply, then build the record. */
  function FetchUtxo(utxo: UtxoDescriptor, hexReply: Result<string, ErrorObject>): (r: Result<Utxo, ErrorObject>)
    ensures r.Ok? <==> hexReply.Ok?
    ensures r.Ok? ==> Describes(r.value, utxo, hexReply.value)
    ensures r.Err? ==> r.error == hexReply.error
  {
    match hexReply
    case Err(e) => Err(e)
    case Ok(transactionHex) =>
      Ok(Utxo(
        confirmed := utxo.status.confirmed,
        txid := utxo.txid,
        index := utxo.vout,
        amount := SatoshiFormat.FormatSats(utxo.value),
        amountSats := utxo.value,
        transactionHex := transactionHex))
  }

  /** `i` is the first listed output whose hex fetch failed. */
  predicate FirstFailure(utxos: seq<UtxoDescriptor>, fetchHex: string -> Result<string, ErrorObject>, i: int) {
    && 0 <= i < |utxos|
    && fetchHex(utxos[i].txid).Err?
    && forall j :: 0 <= j < i ==> fetchHex(utxos[j].txid).Ok?
  }

  /** `blockExplorerGetAddresesUTXOs`: all records, one per listed output and in
      listing order, or one normalised error and no records at all. */
  function GetAddressUtxos(
    listing: Result<seq<UtxoDescriptor>, ErrorObject>,
    fetchHex: string -> Result<string, ErrorObject>
  ): (r: Result<seq<Utxo>, JsValue>)
    ensures listing.Err? ==> r == Err(NormalizeError(listing.error))
    ensures listing.Ok? ==>
              (r.Ok? <==> forall i :: 0 <= i < |listing.value| ==> fetchHex(listing.value[i].txid).Ok?)
    ensures r.Ok? ==> listing.Ok? && |r.value| == |listing.value|
    ensures r.Ok? ==>
              forall i :: 0 <= i < |r.value| ==>
                Describes(r.value[i], listing.value[i], fetchHex(listing.value[i].txid).value)
    ensures listing.Ok? && r.Err? ==>
              exists i :: FirstFailure(listing.value, fetchHex, i) &&
                          r.error == NormalizeError(fetchHex(listing.value[i].txid).error)
  {
    match listing
    case Err(e) => Err(NormalizeError(e))
    case Ok(utxos) =>
      var settled := seq(|utxos|, i requires 0 <= i < |utxos| => FetchUtxo(utxos[i], fetchHex(utxos[i].txid)));
      assert forall i :: 0 <= i < |utxos| ==> (settled[i].Ok? <==> fetchHex(utxos[i].txid).Ok?);
      match PromiseAll(settled)
      case Ok(records) => Ok(records)
      case Err(e) =>
        var i :| 0 <= i < |settled| && settled[i] == Err(e) && forall j :: 0 <= j < i ==> settled[j].Ok?;
        assert FirstFailure(utxos, fetchHex, i);
        Err(NormalizeError(e))
  }

  // ---------------------------------------------------------------------------
  // Properties of UTXO discovery

  /** An address without unspent outputs yields no records and no error. */
  lemma EmptyListingSucceeds(fetchHex: string -> Result<string, ErrorObject>)
    ensures GetAddressUtxos(Ok([]), fetchHex) == Ok([])
  {
  }

  /** One failed hex fetch fails the whole call: no partial set of records. */
  lemma AnyHexFailureFailsAll(
    utxos: seq<UtxoDescriptor>, fetchHex: string -> Result<string, ErrorObject>, k: nat)
    requires k < |utxos| && fetchHex(utxos[k].txid).Err?
    ensures GetAddressUtxos(Ok(utxos), fetchHex).Err?
  {
  }

  /** Outputs of the same parent transaction carry the same transaction hex.
      The source issues a separate request for each of them; this holds
      because the model takes the explorer to answer every request for one
      transaction id alike (the hex replies are a function of the txid). */
  lemma SameTxidSameHex(
    utxos: seq<UtxoDescriptor>, fetchHex: string -> Result<string, ErrorObject>, i: nat, j: nat)
    requires forall k :: 0 <= k < |utxos| ==> fetchHex(utxos[k].txid).Ok?
    requires i < |utxos| && j < |utxos| && utxos[i].txid == utxos[j].txid
    ensures GetAddressUtxos(Ok(utxos), fetchHex).value[i].transactionHex
         == GetAddressUtxos(Ok(utxos), fetchHex).value[j].transactionHex
  {
  }

  /** The display amount and the exact amount of every record agree: the
      amount string parses back to the listed satoshi value, which is also
      `amountSats`. */
  lemma AmountsAgree(
    listing: Result<seq<UtxoDescriptor>, ErrorObject>, fetchHex: string -> Result<string, ErrorObject>, i: nat)
    requires GetAddressUtxos(listing, fetchHex).Ok? && i < |GetAddressUtxos(listing, fetchHex).value|
    ensures var rec := GetAddressUtxos(listing, fetchHex).value[i];
            rec.amountSats == listing.value[i].value &&
            SatoshiFormat.ParseAmount(rec.amount) == SatoshiFormat.Some(rec.amountSats)
  {
    SatoshiFormat.FormatSatsRoundTrip(listing.value[i].value);
  }

  /** A single confirmed output of 1000 satoshis in transaction "abc". */
  lemma SingleUtxoScenario(fetchHex: string -> Result<string, ErrorObject>)
    requires fetchHex("abc") == Ok("0200")
    ensures GetAddressUtxos(Ok([UtxoDescriptor("abc", 0, 1000, UtxoStatus(true))]), fetchHex)
         == Ok([Utxo(true, "abc", 0, "0.00001000", 1000, "0200")])
  {
    var utxos := [UtxoDescriptor("abc", 0, 1000, UtxoStatus(true))];
    var r := GetAddressUtxos(Ok(utxos), fetchHex);
    assert fetchHex(utxos[0].txid).Ok?;
    SatoshiFormat.FormatSatsExamples();
    assert r.value == [r.value[0]];
  }
}
