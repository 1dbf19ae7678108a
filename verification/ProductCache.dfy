/** The product table, its writers, and the five-minute product cache in front of findOne. */
module ProductCache {
  import opened Common
  import opened Pagination

  /** Milliseconds of one non-decreasing clock. */
  type Millis = nat
  type Id = nat
  type VendorId = nat

  const CACHE_TTL: Millis := 300 * 1000
  const MAX_SIZE: nat := 5 * 1024 * 1024

  datatype Image = Image(url: string, thumbnail: bool, displayOrder: nat)
  datatype Info = Info(name: string, description: string, slug: string, price: nat, category: nat)
  datatype Patch = Patch(
    name: Option<string>, description: Option<string>, slug: Option<string>, price: Option<nat>, category: Option<nat>)

  /** A row of the product table with its images. A row with deletedAt set is soft-deleted. */
  datatype Item = Item(vendor: VendorId, info: Info, status: ProductStatus, deleted: bool, images: seq<Image>)
  datatype Dto = Dto(id: Id, vendor: VendorId, info: Info, images: seq<Image>)
  datatype Entry = Entry(dto: Dto, expiresAt: Millis)
  datatype CatalogDb = CatalogDb(products: map<Id, Item>, cache: map<Id, Entry>)

  const EMPTY := CatalogDb(map[], map[])

  /** An uploaded file: what the checks look at, and the two addresses the storage gives its resized copies. */
  datatype File = File(size: nat, mimeAllowed: bool, magicOk: bool, fullUrl: string, thumbUrl: string)

  datatype Result = Done | NotFound | Forbidden | BadRequest

  datatype Op =
    | FindOne(id: Id)
    | CreateForVendor(id: Id, vendor: VendorId, info: Info)
    | CreateForAdmin(id: Id, vendor: VendorId, info: Info, status: Option<ProductStatus>)
    | UpdateForVendor(id: Id, vendor: VendorId, patch: Patch)
    | SoftDeleteForVendor(id: Id, vendor: VendorId)
    | UpdateForAdmin(id: Id, patch: Patch, status: Option<ProductStatus>)
    | HardDelete(id: Id)
    | Approve(id: Id)
    | Reject(id: Id)
    | Suspend(id: Id)
    | Upload(id: Id, vendor: VendorId, file: File)

  function ToDto(id: Id, p: Item): Dto {
    Dto(id, p.vendor, p.info, p.images)
  }

  function Pick<T>(given: Option<T>, current: T): T {
    if given.Some? then given.value else current
  }

  function Patched(patch: Patch, info: Info): Info {
    Info(Pick(patch.name, info.name), Pick(patch.description, info.description), Pick(patch.slug, info.slug),
         Pick(patch.price, info.price), Pick(patch.category, info.category))
  }

  /** A repository read never sees soft-deleted rows. */
  predicate Stored(db: CatalogDb, id: Id) {
    id in db.products && !db.products[id].deleted
  }

  predicate Public(db: CatalogDb, id: Id) {
    Stored(db, id) && db.products[id].status == ACTIVE
  }

  /** What findOne would answer without a cache. */
  function Lookup(db: CatalogDb, id: Id): Option<Dto> {
    if Public(db, id) then Some(ToDto(id, db.products[id])) else None
  }

  predicate Live(db: CatalogDb, id: Id, now: Millis) {
    id in db.cache && now < db.cache[id].expiresAt
  }

  /** What findOne answers. */
  function Answer(db: CatalogDb, id: Id, now: Millis): Option<Dto> {
    if Live(db, id, now) then Some(db.cache[id].dto) else Lookup(db, id)
  }

  function VendorGate(db: CatalogDb, id: Id, vendor: VendorId): Result {
    if !Stored(db, id) then NotFound else if db.products[id].vendor != vendor then Forbidden else Done
  }

  function UploadGate(db: CatalogDb, id: Id, vendor: VendorId, file: File): Result {
    if VendorGate(db, id, vendor) != Done then VendorGate(db, id, vendor)
    else if file.size > MAX_SIZE || !file.mimeAllowed || !file.magicOk then BadRequest
    else Done
  }

  /** How an operation ends; findOne and the creations always end, with or without a product. */
  function Outcome(db: CatalogDb, op: Op): Result {
    match op
    case FindOne(_) => Done
    case CreateForVendor(_, _, _) => Done
    case CreateForAdmin(_, _, _, _) => Done
    case UpdateForVendor(id, vendor, _) => VendorGate(db, id, vendor)
    case SoftDeleteForVendor(id, vendor) => VendorGate(db, id, vendor)
    case Upload(id, vendor, file) => UploadGate(db, id, vendor, file)
    case _ => if Stored(db, op.id) then Done else NotFound
  }

  function WithImages(p: Item, file: File): Item {
    p.(images := p.images + [Image(file.fullUrl, false, |p.images|), Image(file.thumbUrl, true, |p.images| + 1)])
  }

  /** The product table after an operation that does not fail. */
  function Written(products: map<Id, Item>, op: Op): map<Id, Item>
    requires !op.FindOne? && !op.CreateForVendor? && !op.CreateForAdmin? ==> op.id in products
  {
    match op
    case FindOne(_) => products
    case CreateForVendor(id, vendor, info) => products[id := Item(vendor, info, PENDING_REVIEW, false, [])]
    case CreateForAdmin(id, vendor, info, status) => products[id := Item(vendor, info, Pick(status, ACTIVE), false, [])]
    case UpdateForVendor(id, _, patch) =>
      products[id := products[id].(info := Patched(patch, products[id].info), status := PENDING_REVIEW)]
    case SoftDeleteForVendor(id, _) => products[id := products[id].(status := DELETED, deleted := true)]
    case UpdateForAdmin(id, patch, status) =>
      var p := products[id];
      products[id := p.(info := Patched(patch, p.info), status := Pick(status, p.status))]
    case HardDelete(id) => products - {id}
    case Approve(id) => products[id := products[id].(status := ACTIVE)]
    case Reject(id) => products[id := products[id].(status := REJECTED)]
    case Suspend(id) => products[id := products[id].(status := SUSPENDED)]
    case Upload(id, _, file) => products[id := WithImages(products[id], file)]
  }

  /** The cache after an operation that succeeds: a miss fills it, a writer deletes its key, an upload does neither. */
  function CacheAfter(db: CatalogDb, op: Op, now: Millis): map<Id, Entry> {
    match op
    case FindOne(id) =>
      if Live(db, id, now) || Lookup(db, id).None? then db.cache
      else db.cache[id := Entry(Lookup(db, id).value, now + CACHE_TTL)]
    case CreateForVendor(_, _, _) => db.cache
    case CreateForAdmin(_, _, _, _) => db.cache
    case Upload(_, _, _) => db.cache
    case _ => db.cache - {op.id}
  }

  function Next(db: CatalogDb, op: Op, now: Millis): CatalogDb {
    if Outcome(db, op) != Done then db else CatalogDb(Written(db.products, op), CacheAfter(db, op, now))
  }

  /** One row changes: its given fields are the patch's, and nothing else of it but perhaps its status. */
  predicate OnlyPatched(before: map<Id, Item>, after: map<Id, Item>, id: Id, patch: Patch) {
    && id in before && after.Keys == before.Keys && (forall i | i in before && i != id :: after[i] == before[i])
    && (var was, got := before[id], after[id];
        && got.vendor == was.vendor && got.deleted == was.deleted && got.images == was.images
        && got.info.name == (if patch.name.Some? then patch.name.value else was.info.name)
        && got.info.description == (if patch.description.Some? then patch.description.value else was.info.description)
        && got.info.slug == (if patch.slug.Some? then patch.slug.value else was.info.slug)
        && got.info.price == (if patch.price.Some? then patch.price.value else was.info.price)
        && got.info.category == (if patch.category.Some? then patch.category.value else was.info.category))
  }

  class CatalogService {
    var products: map<Id, Item>
    var cache: map<Id, Entry>

    constructor ()
      ensures Db() == EMPTY
    {
      products, cache := map[], map[];
    }

    ghost function Db(): CatalogDb
      reads this
    {
      CatalogDb(products, cache)
    }

    method FindOne(id: Id, now: Millis) returns (dto: Option<Dto>)
      modifies this`cache
      ensures dto == Answer(old(Db()), id, now)
      ensures Db() == Next(old(Db()), Op.FindOne(id), now)
      ensures var hit := id in old(cache) && now < old(cache)[id].expiresAt;
              var shown := id in products && !products[id].deleted && products[id].status == ACTIVE;
              && dto == (if hit then Some(old(cache)[id].dto)
                         else if shown then Some(Dto(id, products[id].vendor, products[id].info, products[id].images))
                         else None)
              && cache == if hit || !shown then old(cache)
                          else old(cache)[id := Entry(dto.value, now + 5 * 60 * 1000)]
    {
      if id in cache && now < cache[id].expiresAt {
        return Some(cache[id].dto);
      }
      if id !in products || products[id].deleted || products[id].status != ACTIVE {
        return None;
      }
      var found := ToDto(id, products[id]);
      cache := cache[id := Entry(found, now + CACHE_TTL)];
      return Some(found);
    }

    method CreateForVendor(id: Id, vendor: VendorId, info: Info, ghost now: Millis)
      modifies this`products
      ensures Db() == Next(old(Db()), Op.CreateForVendor(id, vendor, info), now)
      ensures products == old(products)[id := Item(vendor, info, PENDING_REVIEW, false, [])]
      ensures Lookup(Db(), id) == None
    {
      products := products[id := Item(vendor, info, PENDING_REVIEW, false, [])];
    }

    method CreateForAdmin(id: Id, vendor: VendorId, info: Info, status: Option<ProductStatus>, ghost now: Millis)
      modifies this`products
      ensures Db() == Next(old(Db()), Op.CreateForAdmin(id, vendor, info, status), now)
      ensures var given := if status.Some? then status.value else ACTIVE;
              products == old(products)[id := Item(vendor, info, given, false, [])]
      ensures Lookup(Db(), id).Some? <==> status in {None, Some(ACTIVE)}
    {
      products := products[id := Item(vendor, info, if status.Some? then status.value else ACTIVE, false, [])];
    }

    method UpdateForVendor(id: Id, vendor: VendorId, patch: Patch, ghost now: Millis) returns (r: Result)
      modifies this
      ensures r == Outcome(old(Db()), Op.UpdateForVendor(id, vendor, patch))
      ensures Db() == Next(old(Db()), Op.UpdateForVendor(id, vendor, patch), now)
      ensures r == NotFound <==> !(id in old(products) && !old(products)[id].deleted)
      ensures r == Forbidden <==> r != NotFound && old(products)[id].vendor != vendor
      ensures r != Done ==> unchanged(this)
      ensures r == Done ==>
        && OnlyPatched(old(products), products, id, patch)
        && products[id].status == PENDING_REVIEW && cache == old(cache) - {id}
      ensures r == Done ==> forall t: Millis :: Answer(Db(), id, t) == None
    {
      r := CheckOwner(id, vendor);
      if r != Done {
        return;
      }
      var product := products[id];
      product := product.(info := Patched(patch, product.info));
      product := product.(status := PENDING_REVIEW);
      SaveAndInvalidate(id, product);
    }

    method SoftDeleteForVendor(id: Id, vendor: VendorId, ghost now: Millis) returns (r: Result)
      modifies this
      ensures r == Outcome(old(Db()), Op.SoftDeleteForVendor(id, vendor))
      ensures Db() == Next(old(Db()), Op.SoftDeleteForVendor(id, vendor), now)
      ensures r == Done ==> forall t: Millis :: Answer(Db(), id, t) == None
      ensures r == NotFound <==> !(id in old(products) && !old(products)[id].deleted)
      ensures r == Forbidden <==> r != NotFound && old(products)[id].vendor != vendor
      ensures r != Done ==> unchanged(this)
      ensures r == Done ==>
        && products == old(products)[id := old(products)[id].(status := DELETED, deleted := true)]
        && cache == old(cache) - {id}
    {
      r := CheckOwner(id, vendor);
      if r != Done {
        return;
      }
      SaveAndInvalidate(id, products[id].(status := DELETED, deleted := true));
    }

    method UpdateForAdmin(id: Id, patch: Patch, status: Option<ProductStatus>, ghost now: Millis) returns (r: Result)
      modifies this
      ensures r == Outcome(old(Db()), Op.UpdateForAdmin(id, patch, status))
      ensures Db() == Next(old(Db()), Op.UpdateForAdmin(id, patch, status), now)
      ensures r == NotFound <==> !(id in old(products) && !old(products)[id].deleted)
      ensures r != Done ==> unchanged(this)
      ensures r == Done ==>
        && OnlyPatched(old(products), products, id, patch)
        && products[id].status == (if status.Some? then status.value else old(products)[id].status)
        && cache == old(cache) - {id}
      ensures r == Done ==> forall t: Millis :: Answer(Db(), id, t) == Lookup(Db(), id)
    {
      if id !in products || products[id].deleted {
        return NotFound;
      }
      var product := products[id];
      product := product.(info := Patched(patch, product.info));
      if status.Some? {
        product := product.(status := status.value);
      }
      SaveAndInvalidate(id, product);
      return Done;
    }

    method HardDelete(id: Id, ghost now: Millis) returns (r: Result)
      modifies this
      ensures r == Outcome(old(Db()), Op.HardDelete(id))
      ensures Db() == Next(old(Db()), Op.HardDelete(id), now)
      ensures r == NotFound <==> !(id in old(products) && !old(products)[id].deleted)
      ensures r != Done ==> unchanged(this)
      ensures r == Done ==> products == old(products) - {id} && cache == old(cache) - {id}
      ensures r == Done ==> forall t: Millis :: Answer(Db(), id, t) == None
    {
      if id !in products || products[id].deleted {
        return NotFound;
      }
      products := products - {id};
      cache := cache - {id};
      return Done;
    }

    method Approve(id: Id, ghost now: Millis) returns (r: Result)
      modifies this
      ensures r == Outcome(old(Db()), Op.Approve(id))
      ensures Db() == Next(old(Db()), Op.Approve(id), now)
      ensures r == NotFound <==> !(id in old(products) && !old(products)[id].deleted)
      ensures r != Done ==> unchanged(this)
      ensures r == Done ==>
        products == old(products)[id := old(products)[id].(status := ACTIVE)] && cache == old(cache) - {id}
      ensures r == Done ==> forall t: Millis :: Answer(Db(), id, t) == Some(ToDto(id, old(products)[id]))
    {
      r := SetStatus(id, ACTIVE);
    }

    method Reject(id: Id, ghost now: Millis) returns (r: Result)
      modifies this
      ensures r == Outcome(old(Db()), Op.Reject(id))
      ensures Db() == Next(old(Db()), Op.Reject(id), now)
      ensures r == NotFound <==> !(id in old(products) && !old(products)[id].deleted)
      ensures r != Done ==> unchanged(this)
      ensures r == Done ==>
        products == old(products)[id := old(products)[id].(status := REJECTED)] && cache == old(cache) - {id}
      ensures r == Done ==> forall t: Millis :: Answer(Db(), id, t) == None
    {
      r := SetStatus(id, REJECTED);
    }

    method Suspend(id: Id, ghost now: Millis) returns (r: Result)
      modifies this
      ensures r == Outcome(old(Db()), Op.Suspend(id))
      ensures Db() == Next(old(Db()), Op.Suspend(id), now)
      ensures r == NotFound <==> !(id in old(products) && !old(products)[id].deleted)
      ensures r != Done ==> unchanged(this)
      ensures r == Done ==>
        products == old(products)[id := old(products)[id].(status := SUSPENDED)] && cache == old(cache) - {id}
      ensures r == Done ==> forall t: Millis :: Answer(Db(), id, t) == None
    {
      r := SetStatus(id, SUSPENDED);
    }

    /** Belongs to the vendor's image service: it writes image rows and leaves the cache alone. */
    method UploadProductImage(id: Id, vendor: VendorId, file: File, ghost now: Millis) returns (r: Result)
      modifies this`products
      ensures r == Outcome(old(Db()), Op.Upload(id, vendor, file))
      ensures Db() == Next(old(Db()), Op.Upload(id, vendor, file), now)
      ensures r == NotFound <==> !(id in old(products) && !old(products)[id].deleted)
      ensures r == Forbidden <==> r != NotFound && old(products)[id].vendor != vendor
      ensures r == BadRequest <==>
        r != NotFound && r != Forbidden && (file.size > 5 * 1024 * 1024 || !file.mimeAllowed || !file.magicOk)
      ensures r != Done ==> unchanged(this)
      ensures r == Done ==>
        var images := old(products)[id].images;
        products == old(products)[id := old(products)[id].(images := images +
          [Image(file.fullUrl, false, |images|), Image(file.thumbUrl, true, |images| + 1)])]
      ensures forall t: Millis :: Live(old(Db()), id, t) ==> Answer(Db(), id, t) == Answer(old(Db()), id, t)
    {
      r := CheckOwner(id, vendor);
      if r != Done {
        return;
      }
      if file.size > MAX_SIZE || !file.mimeAllowed || !file.magicOk {
        return BadRequest;
      }
      products := products[id := WithImages(products[id], file)];
    }

    method CheckOwner(id: Id, vendor: VendorId) returns (r: Result)
      ensures r == VendorGate(Db(), id, vendor)
    {
      if id !in products || products[id].deleted {
        return NotFound;
      }
      return if products[id].vendor != vendor then Forbidden else Done;
    }

    method SetStatus(id: Id, status: ProductStatus) returns (r: Result)
      modifies this
      ensures r == if Stored(old(Db()), id) then Done else NotFound
      ensures r == Done ==>
        products == old(products)[id := old(products)[id].(status := status)] && cache == old(cache) - {id}
      ensures r != Done ==> unchanged(this)
    {
      if id !in products || products[id].deleted {
        return NotFound;
      }
      SaveAndInvalidate(id, products[id].(status := status));
      return Done;
    }

    method SaveAndInvalidate(id: Id, product: Item)
      modifies this
      ensures products == old(products)[id := product] && cache == old(cache) - {id}
    {
      products := products[id := product];
      cache := cache - {id};
    }
  }

  // ---- Coherence of one step ----

  /** Every answer comes out as if there were no cache. */
  ghost predicate Coherent(db: CatalogDb, now: Millis) {
    forall id :: Answer(db, id, now) == Lookup(db, id)
  }

  /** The one operation that changes a product's DTO under a live entry. */
  predicate UploadsUnderCache(db: CatalogDb, op: Op, now: Millis) {
    op.Upload? && Outcome(db, op) == Done && Live(db, op.id, now)
  }

  /** A created product gets a fresh id. */
  predicate FreshId(db: CatalogDb, op: Op) {
    op.CreateForVendor? || op.CreateForAdmin? ==> op.id !in db.products
  }

  lemma {:induction false} OtherIdsUntouched(db: CatalogDb, op: Op, now: Millis, id: Id)
    requires id != op.id
    ensures Answer(Next(db, op, now), id, now) == Answer(db, id, now)
    ensures Lookup(Next(db, op, now), id) == Lookup(db, id)
  {
  }

  lemma {:induction false} OwnIdCoherentIff(db: CatalogDb, op: Op, now: Millis)
    requires Answer(db, op.id, now) == Lookup(db, op.id) && FreshId(db, op)
    ensures Answer(Next(db, op, now), op.id, now) == Lookup(Next(db, op, now), op.id)
       <==> !UploadsUnderCache(db, op, now)
  {
  }

  /** Every operation keeps the cache coherent except an image upload under a live entry, which never does. */
  lemma {:induction false} StepCoherentIff(db: CatalogDb, op: Op, now: Millis)
    requires Coherent(db, now) && FreshId(db, op)
    ensures Coherent(Next(db, op, now), now) <==> !UploadsUnderCache(db, op, now)
  {
    OwnIdCoherentIff(db, op, now);
    forall id | id != op.id
      ensures Answer(Next(db, op, now), id, now) == Lookup(Next(db, op, now), id)
    {
      OtherIdsUntouched(db, op, now, id);
      assert Answer(db, id, now) == Lookup(db, id);
    }
  }

  // ---- Runs, uploads included ----

  datatype Timed = Timed(op: Op, at: Millis)

  /** The service, its clock, and when each product last got an image. */
  datatype World = World(db: CatalogDb, now: Millis, lastUpload: map<Id, Millis>)

  const START := World(EMPTY, 0, map[])

  predicate Enabled(w: World, e: Timed) {
    w.now <= e.at && FreshId(w.db, e.op)
  }

  function Step(w: World, e: Timed): World {
    World(Next(w.db, e.op, e.at), e.at,
          if e.op.Upload? && Outcome(w.db, e.op) == Done then w.lastUpload[e.op.id := e.at] else w.lastUpload)
  }

  function Run(events: seq<Timed>): World {
    if events == [] then START else Step(Run(events[..|events| - 1]), events[|events| - 1])
  }

  predicate ValidRun(events: seq<Timed>) {
    events == [] || (ValidRun(events[..|events| - 1]) && Enabled(Run(events[..|events| - 1]), events[|events| - 1]))
  }

  /** Whatever is asked next, at any later time and with a fresh id for a new product, a run can go on with it. */
  lemma {:induction false} RunGoesOn(events: seq<Timed>, e: Timed)
    requires ValidRun(events) && Run(events).now <= e.at
    requires e.op.CreateForVendor? || e.op.CreateForAdmin? ==> e.op.id !in Run(events).db.products
    ensures Run([]) == World(CatalogDb(map[], map[]), 0, map[])
    ensures ValidRun(events + [e])
    ensures var w := Run(events);
            Run(events + [e]) ==
              World(Next(w.db, e.op, e.at), e.at,
                    if e.op.Upload? && UploadGate(w.db, e.op.id, e.op.vendor, e.op.file) == Done
                    then w.lastUpload[e.op.id := e.at] else w.lastUpload)
  {
    assert (events + [e])[..|events|] == events;
  }

  /** A stale DTO is right about everything but the newest images. */
  predicate OnlyImagesMissing(stale: Dto, current: Dto) {
    stale == current.(images := stale.images) && stale.images <= current.images
  }

  /** What holds of each cache entry: its product is public, and it is exact unless an image came after it. */
  predicate EntryOk(w: World, id: Id) {
    id in w.db.cache ==>
      var entry := w.db.cache[id];
      && entry.expiresAt <= w.now + CACHE_TTL
      && Public(w.db, id)
      && OnlyImagesMissing(entry.dto, ToDto(id, w.db.products[id]))
      && (entry.dto == ToDto(id, w.db.products[id])
          || (id in w.lastUpload && entry.expiresAt <= w.lastUpload[id] + CACHE_TTL))
  }

  lemma {:induction false} StepKeepsOtherEntry(w: World, e: Timed, id: Id)
    requires EntryOk(w, id) && Enabled(w, e) && id != e.op.id
    ensures EntryOk(Step(w, e), id)
  {
  }

  lemma {:induction false} StepKeepsOwnEntry(w: World, e: Timed)
    requires EntryOk(w, e.op.id) && Enabled(w, e)
    ensures EntryOk(Step(w, e), e.op.id)
  {
  }

  lemma {:induction false} RunKeepsEntries(events: seq<Timed>, id: Id)
    requires ValidRun(events)
    ensures EntryOk(Run(events), id)
    decreases |events|
  {
    if events != [] {
      var w, e := Run(events[..|events| - 1]), events[|events| - 1];
      RunKeepsEntries(events[..|events| - 1], id);
      if id == e.op.id { StepKeepsOwnEntry(w, e); } else { StepKeepsOtherEntry(w, e, id); }
    }
  }

  /**
   * Bounded staleness in every run. findOne finds a product exactly when the uncached lookup does, the two answers
   * differ at most in the newest images, and they are equal unless that product got an image less than CACHE_TTL ago.
   */
  lemma {:induction false} AnswersAreFresh(events: seq<Timed>, id: Id, now: Millis)
    requires ValidRun(events) && Run(events).now <= now
    ensures var w := Run(events);
            var answer, exact := Answer(w.db, id, now), Lookup(w.db, id);
            && (answer.Some? <==> exact.Some?)
            && (answer.Some? ==>
                  && answer.value == exact.value.(images := answer.value.images)
                  && answer.value.images <= exact.value.images)
            && (answer != exact ==> id in w.lastUpload && now < w.lastUpload[id] + CACHE_TTL)
  {
    RunKeepsEntries(events, id);
  }

  /** Without image uploads the cache is never seen. */
  lemma {:induction false} CoherentWithoutUploads(events: seq<Timed>, now: Millis)
    requires ValidRun(events) && Run(events).now <= now
    requires forall i | 0 <= i < |events| :: !events[i].op.Upload?
    ensures Coherent(Run(events).db, now)
  {
    NoUploads(events);
    forall id ensures Answer(Run(events).db, id, now) == Lookup(Run(events).db, id) {
      AnswersAreFresh(events, id, now);
    }
  }

  lemma {:induction false} NoUploads(events: seq<Timed>)
    requires forall i | 0 <= i < |events| :: !events[i].op.Upload?
    ensures Run(events).lastUpload == map[]
    decreases |events|
  {
    if events != [] {
      NoUploads(events[..|events| - 1]);
    }
  }

  /** The stale window is real: an image added one second after a read is missing from reads until the entry expires. */
  lemma {:induction false} UploadStaysHidden(info: Info, file: File, now: Millis)
    requires file.size <= MAX_SIZE && file.mimeAllowed && file.magicOk
    requires 1000 <= now < CACHE_TTL
    ensures var read := Next(Next(EMPTY, CreateForAdmin(1, 7, info, None), 0), FindOne(1), 0);
            var db := Next(read, Upload(1, 7, file), 1000);
            Answer(db, 1, now) == Some(Dto(1, 7, info, []))
            && Lookup(db, 1) == Some(Dto(1, 7, info, [Image(file.fullUrl, false, 0), Image(file.thumbUrl, true, 1)]))
  {
    var created := Next(EMPTY, CreateForAdmin(1, 7, info, None), 0);
    assert Lookup(created, 1) == Some(Dto(1, 7, info, []));
    var read := Next(created, FindOne(1), 0);
    assert read.cache[1] == Entry(Dto(1, 7, info, []), CACHE_TTL);
    var uploaded := Next(read, Upload(1, 7, file), 1000);
    assert Outcome(read, Upload(1, 7, file)) == Done;
    assert uploaded.cache == read.cache;
    assert uploaded.products[1].images == [Image(file.fullUrl, false, 0), Image(file.thumbUrl, true, 1)];
  }
}
