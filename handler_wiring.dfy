/**
  How the handler's parts are built and fit together: the market state,
  the instrument indexer, the batch run repository and the scratch batch
  run, each owning its own buffer.
*/
module HandlerWiring {
  import opened Bytes
  import opened Configuration
  import opened Flyweight
  import opened IndexedPriceRecord
  import opened RecordsBlock
  import opened MarketState
  import opened BatchRun
  import opened BatchRunRepository
  import opened InstrumentIndexer

  /** `createOperationalBatchRun`: the scratch run, index -1, bound at 0 to a zero-filled buffer of its own size. */
  method CreateOperationalBatchRun(instrumentsNumber: nat) returns (run: BatchRun)
    ensures fresh(run) && fresh(run.block) && fresh(run.block.view) && fresh(run.block.priceRecord)
    ensures run.block.view.writeBuffer != null && fresh(run.block.view.writeBuffer)
    ensures run.index == -1 && run.included == {} && run.Bound()
    ensures run.block.view.offset == 0 && run.block.recordsNumber == instrumentsNumber
  {
    run := new BatchRun(-1, instrumentsNumber);
    var buffer := new byte[run.block.SizeInBytes()](_ => 0);
    var r := run.block.WrapForWrite(buffer, 0);
  }

  /**
    The repository owns none of the market state's or the scratch run's
    objects or buffers, and those two share no view and no buffer.
  */
  ghost predicate Apart(market: Block, repo: Repository, scratch: BatchRun)
    reads market.view, scratch.block.view
  {
    var own: set<object> := {market, market.view, market.priceRecord, scratch, scratch.block, scratch.block.view, scratch.block.priceRecord};
    && repo !in own && own !! repo.Repr
    && market.priceRecord != scratch.block.view && scratch.block.priceRecord != market.view
    && market.view.writeBuffer !in repo.Repr && scratch.block.view.writeBuffer !in repo.Repr
    && market.view.writeBuffer != scratch.block.view.writeBuffer
    && market.view.writeBuffer !in repo.buffers && scratch.block.view.writeBuffer !in repo.buffers
  }

  /**
    The market state (no header) and the scratch run are bound at 0, with
    one record per known instrument.
  */
  ghost predicate Laid(market: Block, idx: Indexer, scratch: BatchRun)
    reads market, market.view, scratch, scratch.block, scratch.block.view
  {
    && Sorted(idx.sorted)
    && market.Bound() && market.headerSize == MARKET_STATE_HEADER_SIZE && market.view.offset == 0
    && market.recordsNumber == |idx.sorted|
    && scratch.Bound() && scratch.block.view.offset == 0 && scratch.block.recordsNumber == |idx.sorted|
  }

  /** The handler's parts fit together: a valid repository, apart from the market state and the scratch run, both laid out. */
  ghost predicate Wired(market: Block, idx: Indexer, repo: Repository, scratch: BatchRun)
    reads repo, repo.Repr, market, market.view, scratch, scratch.block, scratch.block.view
  {
    repo.Valid() && Apart(market, repo, scratch) && Laid(market, idx, scratch)
  }

  /** A zero-filled market state holds no price. */
  lemma NoPriceYet(market: Block)
    requires market.Bound() && market.view.offset == 0 && market.headerSize == MARKET_STATE_HEADER_SIZE
    requires forall i | 0 <= i < market.view.writeBuffer.Length :: market.view.writeBuffer[i] == 0
    ensures forall i | 0 <= i < market.recordsNumber :: !PriceAvailable(market, i)
  {
    forall i | 0 <= i < market.recordsNumber
      ensures !PriceAvailable(market, i)
    {
      SlotInside(0, i, market.recordsNumber);
      ZeroLong(market.view.writeBuffer[..], SlotPos(0, i) + TIMESTAMP_FIELD_OFFSET);
    }
  }

  /**
    The constructor's work, in the source's order: an unbound market state
    with one record per instrument, the indexer over the instruments, a
    repository whose runs have `runRecords` records, the scratch run, and
    last the market state bound to a zero-filled buffer, so that no
    instrument has a price yet.
  */
  method Assemble(instruments: seq<string>, runRecords: nat)
    returns (market: Block, idx: Indexer, repo: Repository, scratch: BatchRun)
    ensures Wired(market, idx, repo, scratch) && fresh(repo) && fresh(repo.Repr)
    ensures idx == NewIndexer(instruments) && |idx.sorted| == |instruments|
    ensures repo.recordsNumber == runRecords && repo.idToIndex == map[] && repo.queued == {}
    ensures forall i | 0 <= i < |idx.sorted| :: !PriceAvailable(market, i)
  {
    market, idx, repo, scratch := Unbound(instruments, runRecords);
    label built:
    BindMarket(market);
    repo.Framed@built();
    assert Apart(market, repo, scratch);
    assert Laid(market, idx, scratch);
    NoPriceYet(market);
  }

  /** Every part but the market state's buffer, built and kept apart. */
  method Unbound(instruments: seq<string>, runRecords: nat)
    returns (market: Block, idx: Indexer, repo: Repository, scratch: BatchRun)
    ensures fresh(market) && fresh(market.view) && fresh(market.priceRecord) && market.Valid()
    ensures market.recordsNumber == |instruments| && market.headerSize == MARKET_STATE_HEADER_SIZE
    ensures repo.Valid() && fresh(repo) && fresh(repo.Repr)
    ensures idx == NewIndexer(instruments) && |idx.sorted| == |instruments|
    ensures repo.recordsNumber == runRecords && repo.idToIndex == map[] && repo.queued == {}
    ensures fresh(scratch) && fresh(scratch.block) && fresh(scratch.block.view) && fresh(scratch.block.priceRecord)
    ensures fresh(scratch.block.view.writeBuffer)
    ensures scratch.Bound() && scratch.block.view.offset == 0 && scratch.block.recordsNumber == |instruments|
    ensures scratch.block.view != market.view && market.priceRecord != scratch.block.view && scratch.block.priceRecord != market.view
    ensures repo !in {market, market.view, market.priceRecord, scratch, scratch.block, scratch.block.view, scratch.block.priceRecord}
    ensures {market, market.view, market.priceRecord, scratch, scratch.block, scratch.block.view, scratch.block.priceRecord} !! repo.Repr
    ensures scratch.block.view.writeBuffer !in repo.Repr && scratch.block.view.writeBuffer !in repo.buffers
  {
    var n := |instruments|;
    market := NewMarketState(n);
    idx := NewIndexer(instruments);
    repo := new Repository(runRecords);
    scratch := CreateOperationalBatchRun(n);
  }

  /** `allocateMemoryForFlyweight` on the market state: bound at 0 to a fresh zero-filled buffer of its size. */
  method BindMarket(market: Block)
    requires market.Valid() && market.headerSize == MARKET_STATE_HEADER_SIZE
    modifies market.view
    ensures market.Bound() && market.view.offset == 0 && fresh(market.view.writeBuffer)
    ensures forall i | 0 <= i < market.view.writeBuffer.Length :: market.view.writeBuffer[i] == 0
  {
    MarketStateLayout(market, 0);
    AllocateMemoryForFlyweight(market.view, market.SizeInBytes());
  }
}
