/** The block selection screen's view model (BlokSecimViewModel): the blocks
    of one site with their "fully paid" status for the selected month, and
    adding a block. */
module BlokSecimEkran {
  import opened Entities
  import opened Options
  import opened Database
  import opened AppDatabase
  import opened StatusMaps
  import opened ScreenLookups
  import MonthDao
  import BlockDao
  import BlockRepository
  import PaymentDao
  import PaymentRepository

  datatype BlokSecimUiState = BlokSecimUiState(
    site: Option<Site>,
    month: Option<Month>,
    blocks: seq<Block>,
    blocksStatus: map<nat, bool>,
    isLoading: bool,
    errorMessage: Option<string>)

  const SITE_NOT_FOUND: string := "Site bulunamadı"
  const MONTH_NOT_FOUND: string := "Ay bulunamadı"
  const BLOCK_TAKEN: string := "Bu blok adı zaten mevcut"
  const ADD_FAILED: string := "Blok eklenirken hata oluştu"

  /** The state a new view model starts from (the data class defaults). */
  function InitialState(): BlokSecimUiState {
    BlokSecimUiState(None, None, [], map[], false, None)
  }

  /** The collector's pair of ids: the site whose blocks and the month whose payments it follows. */
  datatype Observed = Observed(siteId: nat, monthId: nat)

  function BlockIdOf(b: Block): nat {
    b.id
  }

  /** isBlockFullyPaid(block.id, monthId), as a test on the block id. */
  function BlockPaidTest(db: Db, monthId: nat): nat -> bool {
    (k: nat) => PaymentRepository.IsBlockFullyPaid(db, k, monthId)
  }

  /** The state observeBlocksAndPayments settles on: the site's blocks, oldest
      first, and for each the value of isBlockFullyPaid for the month. The
      payments the combined flow delivers only trigger the recomputation. */
  function BlocksEmission(state: BlokSecimUiState, db: Db, siteId: nat, monthId: nat): BlokSecimUiState {
    var blocks := BlockDao.BlocksBySite(db, siteId);
    state.(blocks := blocks, blocksStatus := StatusMap(blocks, BlockIdOf, BlockPaidTest(db, monthId)))
  }

  /** The emission a running collector makes, if there is one. */
  function AfterEmission(state: BlokSecimUiState, observed: Option<Observed>, db: Db): BlokSecimUiState {
    if observed.Some? then BlocksEmission(state, db, observed.value.siteId, observed.value.monthId) else state
  }

  /** The status map holds exactly the listed blocks, which are the site's,
      each with whether none of its people is unpaid for the month. */
  lemma BlocksStatusMeaning(state: BlokSecimUiState, db: Db, siteId: nat, monthId: nat)
    ensures var after := BlocksEmission(state, db, siteId, monthId);
      && (forall b :: b in after.blocks <==> b in db.blocks.rows.Values && b.siteId == siteId)
      && (forall k :: k in after.blocksStatus <==> exists b :: b in after.blocks && b.id == k)
      && (forall k :: k in after.blocksStatus ==>
            (after.blocksStatus[k] <==> forall p :: p in db.people.rows.Values && p.blockId == k ==>
              !PaymentDao.PersonUnpaid(db, p.id, monthId)))
  {
    var blocks := BlockDao.BlocksBySite(db, siteId);
    StatusMapKeys(blocks, BlockIdOf, BlockPaidTest(db, monthId));
    assert forall b :: b in blocks ==> BlockIdOf(b) == b.id;
  }

  /** A block just added is listed at the next emission, marked fully paid:
      nobody lives in it yet. */
  lemma AddedBlockShownPaid(state: BlokSecimUiState, db: Db, block: Block, monthId: nat)
    requires db.Valid()
    requires BlockDao.InsertBlock(db, block).Done?
    ensures var ins := BlockDao.InsertBlock(db, block).value;
      var after := BlocksEmission(state, ins.db, block.siteId, monthId);
      && block.(id := ins.id) in after.blocks
      && ins.id in after.blocksStatus && after.blocksStatus[ins.id]
  {
    var ins := BlockDao.InsertBlock(db, block).value;
    BlockDao.InsertBlockThenListed(db, block);
    BlocksStatusMeaning(state, ins.db, block.siteId, monthId);
  }

  class BlokSecimViewModel {
    const store: Store
    const siteName: string
    const selectedMonthId: nat
    var uiState: BlokSecimUiState
    /** What the running observeBlocksAndPayments collector follows, once started. */
    var observed: Option<Observed>

    /** Creation runs loadInitialData. */
    constructor (store: Store, siteName: string, selectedMonthId: nat)
      ensures this.store == store && this.siteName == siteName && this.selectedMonthId == selectedMonthId
      ensures var db := store.Snapshot();
        var site := SiteByName(db, siteName);
        var month := MonthDao.MonthById(db, selectedMonthId);
        && (site.None? ==> uiState == InitialState().(errorMessage := Some(SITE_NOT_FOUND)))
        && (site.Some? && month.None? ==> uiState == InitialState().(errorMessage := Some(MONTH_NOT_FOUND)))
        && (site.Some? && month.Some? ==>
              uiState == BlocksEmission(InitialState().(site := site, month := month), db, site.value.id, month.value.id))
    {
      this.store := store;
      this.siteName := siteName;
      this.selectedMonthId := selectedMonthId;
      uiState := InitialState();
      observed := None;
      new;
      LoadInitialData();
    }

    /** loadInitialData: finds the site by name, then the selected month by
        id, and starts following the site's blocks and the month's payments. */
    method LoadInitialData()
      modifies this
      ensures var db := store.Snapshot();
        var site := SiteByName(db, siteName);
        var month := MonthDao.MonthById(db, selectedMonthId);
        && (site.None? ==>
              uiState == old(uiState).(isLoading := false, errorMessage := Some(SITE_NOT_FOUND))
              && observed == old(observed))
        && (site.Some? && month.None? ==>
              uiState == old(uiState).(isLoading := false, errorMessage := Some(MONTH_NOT_FOUND))
              && observed == old(observed))
        && (site.Some? && month.Some? ==>
              observed == Some(Observed(site.value.id, month.value.id))
              && uiState == BlocksEmission(old(uiState).(site := site, month := month, isLoading := false, errorMessage := None),
                   db, site.value.id, month.value.id))
    {
      uiState := uiState.(isLoading := true);
      var foundSite := SiteByName(store.Snapshot(), siteName);
      if foundSite.Some? {
        var foundMonth := MonthDao.MonthById(store.Snapshot(), selectedMonthId);
        if foundMonth.Some? {
          uiState := uiState.(site := foundSite, month := foundMonth, isLoading := false, errorMessage := None);
          ObserveBlocksAndPayments(foundSite.value.id, foundMonth.value.id);
        } else {
          uiState := uiState.(isLoading := false, errorMessage := Some(MONTH_NOT_FOUND));
        }
      } else {
        uiState := uiState.(isLoading := false, errorMessage := Some(SITE_NOT_FOUND));
      }
    }

    /** observeBlocksAndPayments: starts the collector and takes its first emission. */
    method ObserveBlocksAndPayments(siteId: nat, monthId: nat)
      modifies this
      ensures observed == Some(Observed(siteId, monthId))
      ensures uiState == BlocksEmission(old(uiState), store.Snapshot(), siteId, monthId)
    {
      observed := Some(Observed(siteId, monthId));
      Emit();
    }

    /** One emission of the running collector: the blocks are listed again and
        the status of each is recomputed. */
    method Emit()
      modifies this
      ensures observed == old(observed)
      ensures uiState == AfterEmission(old(uiState), observed, store.Snapshot())
    {
      if observed.Some? {
        var db := store.Snapshot();
        var blocks := BlockDao.BlocksBySite(db, observed.value.siteId);
        var statusMap := BuildStatusMap(blocks, BlockIdOf, BlockPaidTest(db, observed.value.monthId));
        uiState := uiState.(blocks := blocks, blocksStatus := statusMap);
      }
    }

    /** addBlock: with a site loaded, refuses a name the site already has;
        otherwise inserts the block and the collector re-emits. */
    method AddBlock(blockName: string, now: int)
      requires store.Valid()
      modifies this, store
      ensures store.Valid()
      ensures observed == old(observed)
      ensures old(uiState.site).None? ==> store.Snapshot() == old(store.Snapshot()) && uiState == old(uiState)
      ensures old(uiState.site).Some? ==>
        var db := old(store.Snapshot());
        var site := old(uiState.site.value);
        var o := BlockDao.InsertBlock(db, NewBlock(site.id, blockName, now));
        && (BlockRepository.IsBlockNameExists(db, site.id, blockName) ==>
              store.Snapshot() == db && uiState == old(uiState).(errorMessage := Some(BLOCK_TAKEN)))
        && (!BlockRepository.IsBlockNameExists(db, site.id, blockName) && o.Failed? ==>
              store.Snapshot() == db && uiState == old(uiState).(errorMessage := Some(ADD_FAILED)))
        && (!BlockRepository.IsBlockNameExists(db, site.id, blockName) && o.Done? ==>
              store.Snapshot() == o.value.db && uiState == AfterEmission(old(uiState), observed, store.Snapshot()))
    {
      if uiState.site.None? {
        return;
      }
      var site := uiState.site.value;
      if BlockRepository.IsBlockNameExists(store.Snapshot(), site.id, blockName) {
        uiState := uiState.(errorMessage := Some(BLOCK_TAKEN));
        return;
      }
      var r := store.InsertBlock(NewBlock(site.id, blockName, now));
      if r.Failed? {
        uiState := uiState.(errorMessage := Some(ADD_FAILED));
      } else {
        Emit();
      }
    }

    method ClearError()
      modifies this
      ensures uiState == old(uiState).(errorMessage := None)
      ensures observed == old(observed)
    {
      uiState := uiState.(errorMessage := None);
    }
  }
}
