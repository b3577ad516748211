/** The rows both storage engines hold, and one `Put` for every way of storing one. */
module Rows {
  import opened Prelude

  datatype Network = Local | Devnet | Testnet | Mainnet {
    function Name(): Bytes {
      match this
      case Local => Ascii("local")
      case Devnet => Ascii("devnet")
      case Testnet => Ascii("testnet")
      case Mainnet => Ascii("mainnet")
    }
  }

  datatype TxRow = TxRow(network: Network, version: u64, txHash: Bytes, blockTimestampUs: u64, eventCount: u32,
                         datasetId: Option<Bytes>, rawSummary: Option<Bytes>)

  datatype EventSubject = EventSubject(marketId: Option<Bytes>, account: Option<Bytes>, subaccount: Option<Bytes>,
                                       orderId: Option<Bytes>, builderAddr: Option<Bytes>)

  datatype NormalizedEvent = NormalizedEvent(network: Network, version: u64, eventIdx: u32, txHash: Bytes,
                                             blockTimestampUs: u64, eventType: Bytes, subject: EventSubject,
                                             payload: Bytes)

  datatype FillDetails = FillDetails(subaccount: Option<Bytes>, orderId: Option<Bytes>, side: Option<Bytes>,
                                     price: Bytes, size: Bytes, notional: Option<Bytes>, builderAddr: Option<Bytes>,
                                     builderFeeBps: Option<nat>, rawEventType: Bytes)

  datatype FillRow = FillRow(version: u64, eventIdx: u32, fillId: Bytes, marketId: Bytes, account: Bytes,
                             timestampUs: u64, details: FillDetails)

  datatype OrderRow = OrderRow(orderId: Bytes, account: Bytes, marketId: Bytes, side: Option<Bytes>,
                               price: Option<Bytes>, size: Option<Bytes>, status: Option<Bytes>,
                               version: u64, eventIdx: u32, timestampUs: u64, rawEventType: Bytes)

  datatype PositionRow = PositionRow(account: Bytes, marketId: Bytes, subaccount: Option<Bytes>, size: Bytes,
                                     entryPrice: Option<Bytes>, sourceVersion: u64, sourceEventIdx: u32,
                                     timestampUs: u64)

  datatype BuilderRow = BuilderRow(builderAddr: Bytes, marketId: Bytes, account: Bytes, version: u64, eventIdx: u32,
                                   fillId: Bytes, notional: Option<Bytes>, builderFeeBps: Option<nat>,
                                   estimatedFeeAmount: Option<Bytes>, timestampUs: u64)

  datatype ActivityRow = ActivityRow(marketId: Bytes, activityType: Bytes, version: u64, eventIdx: u32,
                                     timestampUs: u64, summary: Bytes)

  datatype IngestCheckpoint = IngestCheckpoint(network: Network, packageAddress: Bytes, datasetId: Option<Bytes>,
                                               lastProcessedVersion: u64, lastProcessedTimestampUs: u64,
                                               eventsIndexed: nat, fillsIndexed: nat, builderAttributionsIndexed: nat)

  datatype TimeWindow = H24 | D7 {
    function DurationUs(): (us: u64)
      ensures us == if this.H24? then 86_400_000_000 else 604_800_000_000
    {
      match this
      case H24 => 24 * 60 * 60 * 1_000_000
      case D7 => 7 * 24 * 60 * 60 * 1_000_000
    }
  }

  datatype Put =
    | PutTx(tx: TxRow)
    | PutEvent(event: NormalizedEvent)
    | PutFill(fill: FillRow)
    | PutOrder(order: OrderRow)
    | PutPosition(position: PositionRow)
    | PutBuilder(builder: BuilderRow)
    | PutActivity(activity: ActivityRow)
    | PutCheckpoint(checkpoint: IngestCheckpoint)

  /** The activity that storing a fill records beside it. */
  function FillActivity(fill: FillRow): ActivityRow {
    ActivityRow(fill.marketId, Ascii("fill"), fill.version, fill.eventIdx, fill.timestampUs, fill.fillId)
  }

  // The rows of one kind that a sequence of puts stores, in order.

  function Txs(puts: seq<Put>): seq<TxRow> {
    if puts == [] then [] else
      var earlier, last := Txs(puts[..|puts| - 1]), puts[|puts| - 1];
      if last.PutTx? then earlier + [last.tx] else earlier
  }

  function Events(puts: seq<Put>): seq<NormalizedEvent> {
    if puts == [] then [] else
      var earlier, last := Events(puts[..|puts| - 1]), puts[|puts| - 1];
      if last.PutEvent? then earlier + [last.event] else earlier
  }

  function Fills(puts: seq<Put>): seq<FillRow> {
    if puts == [] then [] else
      var earlier, last := Fills(puts[..|puts| - 1]), puts[|puts| - 1];
      if last.PutFill? then earlier + [last.fill] else earlier
  }

  function Orders(puts: seq<Put>): seq<OrderRow> {
    if puts == [] then [] else
      var earlier, last := Orders(puts[..|puts| - 1]), puts[|puts| - 1];
      if last.PutOrder? then earlier + [last.order] else earlier
  }

  function Positions(puts: seq<Put>): seq<PositionRow> {
    if puts == [] then [] else
      var earlier, last := Positions(puts[..|puts| - 1]), puts[|puts| - 1];
      if last.PutPosition? then earlier + [last.position] else earlier
  }

  function Builders(puts: seq<Put>): seq<BuilderRow> {
    if puts == [] then [] else
      var earlier, last := Builders(puts[..|puts| - 1]), puts[|puts| - 1];
      if last.PutBuilder? then earlier + [last.builder] else earlier
  }

  function Checkpoints(puts: seq<Put>): seq<IngestCheckpoint> {
    if puts == [] then [] else
      var earlier, last := Checkpoints(puts[..|puts| - 1]), puts[|puts| - 1];
      if last.PutCheckpoint? then earlier + [last.checkpoint] else earlier
  }

  /** Activities come from fills and from direct puts. */
  function Activities(puts: seq<Put>): seq<ActivityRow> {
    if puts == [] then [] else
      var earlier, last := Activities(puts[..|puts| - 1]), puts[|puts| - 1];
      match last
      case PutFill(fill) => earlier + [FillActivity(fill)]
      case PutActivity(activity) => earlier + [activity]
      case _ => earlier
  }
}
