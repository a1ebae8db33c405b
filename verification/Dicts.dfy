/** Dictionaries and their items over two tables, with answers cached by dictionary id, by
    dictionary code and for the first page of the list. */
module Dicts {
  import opened Wrappers
  import opened Redis

  type Id = string

  datatype Status = ACTIVE | INACTIVE

  datatype Dict = Dict(name: string, code: string, status: Status, remark: Option<string>)

  datatype Item = Item(dictId: Id, text: string, value: string, sort: nat, status: Status, remark: Option<string>)

  datatype Tables = Tables(dicts: map<Id, Dict>, items: map<Id, Item>)

  datatype CacheKey = ById(id: Id) | ByCode(code: string) | FirstPage

  /** A dictionary with items of it; their order is left out. */
  datatype Detail = Detail(id: Id, dict: Dict, items: map<Id, Item>)

  /** What a cache entry holds. A page holds every dictionary; the paging is left out. */
  datatype Cached = Single(detail: Detail) | Page(dicts: map<Id, Dict>)

  type Cache = Db<string, Cached>

  datatype DictError = NotFound | CodeTaken | Rejected

  const CACHE_TTL: int := 3600

  /** Partial updates: a missing field keeps the old value. */
  datatype UpdateDict = UpdateDict(name: Option<string>, code: Option<string>, status: Option<Status>, remark: Option<string>)

  datatype UpdateItem = UpdateItem(
    dictId: Option<Id>, text: Option<string>, value: Option<string>, sort: Option<nat>, status: Option<Status>, remark: Option<string>)

  function Or<T>(o: Option<T>, otherwise: T): T {
    if o.Some? then o.value else otherwise
  }

  function PatchDict(d: Dict, dto: UpdateDict): Dict {
    Dict(Or(dto.name, d.name), Or(dto.code, d.code), Or(dto.status, d.status), if dto.remark.Some? then dto.remark else d.remark)
  }

  function PatchItem(i: Item, dto: UpdateItem): Item {
    Item(Or(dto.dictId, i.dictId), Or(dto.text, i.text), Or(dto.value, i.value), Or(dto.sort, i.sort), Or(dto.status, i.status),
         if dto.remark.Some? then dto.remark else i.remark)
  }

  /** A named field gets its value, every other one stays. */
  lemma {:induction false} PatchedDict(d: Dict, dto: UpdateDict)
    ensures var r := PatchDict(d, dto);
            && (dto.name.Some? ==> r.name == dto.name.value) && (dto.name.None? ==> r.name == d.name)
            && (dto.code.Some? ==> r.code == dto.code.value) && (dto.code.None? ==> r.code == d.code)
            && (dto.status.Some? ==> r.status == dto.status.value) && (dto.status.None? ==> r.status == d.status)
            && (dto.remark.Some? ==> r.remark == dto.remark) && (dto.remark.None? ==> r.remark == d.remark)
  {
  }

  lemma {:induction false} PatchedItem(i: Item, dto: UpdateItem)
    ensures var r := PatchItem(i, dto);
            && (dto.dictId.Some? ==> r.dictId == dto.dictId.value) && (dto.dictId.None? ==> r.dictId == i.dictId)
            && (dto.text.Some? ==> r.text == dto.text.value) && (dto.text.None? ==> r.text == i.text)
            && (dto.value.Some? ==> r.value == dto.value.value) && (dto.value.None? ==> r.value == i.value)
            && (dto.sort.Some? ==> r.sort == dto.sort.value) && (dto.sort.None? ==> r.sort == i.sort)
            && (dto.status.Some? ==> r.status == dto.status.value) && (dto.status.None? ==> r.status == i.status)
            && (dto.remark.Some? ==> r.remark == dto.remark) && (dto.remark.None? ==> r.remark == i.remark)
  {
  }

  // ---------------------------------------------------------------- the names of the cache keys

  /** `dict:${id}`, `dict:data:${code}` and `dict:list`. */
  function Name(key: CacheKey): string {
    "dict:" + (match key case ById(id) => id case ByCode(code) => "data:" + code case FirstPage => "list")
  }

  /** Ids read from a path are arbitrary; generated ones have no colon and are longer than "list". */
  predicate PlainId(id: Id) {
    !("data:" <= id) && id != "list"
  }

  predicate PlainKey(key: CacheKey) {
    key.ById? ==> PlainId(key.id)
  }

  lemma {:induction false} SameName(a: CacheKey, b: CacheKey)
    requires Name(a) == Name(b)
    ensures Name(a)[5..] == Name(b)[5..]
    ensures a.ById? ==> Name(a)[5..] == a.id
    ensures a.ByCode? ==> Name(a)[5..] == "data:" + a.code && ("data:" + a.code)[5..] == a.code
    ensures a.FirstPage? ==> Name(a)[5..] == "list"
  {
  }

  /** Among plain keys a name stands for one key. */
  lemma {:induction false} PlainNameInjective(a: CacheKey, b: CacheKey)
    requires PlainKey(a) && PlainKey(b) && Name(a) == Name(b)
    ensures a == b
  {
    SameName(a, b);
    SameName(b, a);
    assert ("data:" + (if a.ByCode? then a.code else ""))[0] != "list"[0];
    assert ("data:" + (if b.ByCode? then b.code else ""))[0] != "list"[0];
  }

  /** The names of an id and of another kind of key coincide exactly for these ids. */
  lemma {:induction false} NamesCoincideExactly(id: Id, code: string)
    ensures Name(ById(id)) == Name(ByCode(code)) <==> id == "data:" + code
    ensures Name(ById(id)) == Name(FirstPage) <==> id == "list"
  {
    if Name(ById(id)) == Name(ByCode(code)) {
      SameName(ById(id), ByCode(code));
      SameName(ByCode(code), ById(id));
    }
    if Name(ById(id)) == Name(FirstPage) {
      SameName(ById(id), FirstPage);
    }
  }

  // ---------------------------------------------------------------- what the tables answer

  /** The constraints of the tables: generated ids, unique codes, and items of existing
      dictionaries. */
  ghost predicate Consistent(t: Tables) {
    && (forall id :: id in t.dicts ==> PlainId(id))
    && (forall i, k :: i in t.dicts && k in t.dicts && i != k ==> t.dicts[i].code != t.dicts[k].code)
    && (forall i :: i in t.items ==> t.items[i].dictId in t.dicts)
  }

  predicate CodeUsed(t: Tables, code: string) {
    exists id :: id in t.dicts && t.dicts[id].code == code
  }

  function ItemsOf(t: Tables, dictId: Id, onlyActive: bool): map<Id, Item> {
    map i | i in t.items && t.items[i].dictId == dictId && (onlyActive ==> t.items[i].status == ACTIVE) :: t.items[i]
  }

  /** The answer computed afresh: by id with every item, by code with the active ones. */
  ghost function Answer(t: Tables, key: CacheKey): Option<Cached> {
    match key
    case ById(id) => if id in t.dicts then Some(Single(Detail(id, t.dicts[id], ItemsOf(t, id, false)))) else None
    case ByCode(code) =>
      if !CodeUsed(t, code) then None
      else
        var id :| id in t.dicts && t.dicts[id].code == code;
        Some(Single(Detail(id, t.dicts[id], ItemsOf(t, id, true))))
    case FirstPage => Some(Page(t.dicts))
  }

  ghost function AsTables(t: Tables, key: CacheKey): Result<Cached, DictError> {
    if Answer(t, key).Some? then Success(Answer(t, key).value) else Failure(NotFound)
  }

  lemma {:induction false} AnswerByCode(t: Tables, id: Id)
    requires Consistent(t) && id in t.dicts
    ensures Answer(t, ByCode(t.dicts[id].code)) == Some(Single(Detail(id, t.dicts[id], ItemsOf(t, id, true))))
  {
  }

  /** The answer by id has every item of the dictionary, the answer by code exactly its active ones. */
  lemma {:induction false} AnswersHold(t: Tables, id: Id, i: Id)
    requires Consistent(t) && id in t.dicts
    ensures var byId, byCode := Answer(t, ById(id)), Answer(t, ByCode(t.dicts[id].code));
            && byId.Some? && byId.value.Single? && byId.value.detail.id == id && byId.value.detail.dict == t.dicts[id]
            && byCode.Some? && byCode.value.Single? && byCode.value.detail.id == id && byCode.value.detail.dict == t.dicts[id]
            && (i in byId.value.detail.items <==> i in t.items && t.items[i].dictId == id)
            && (i in byCode.value.detail.items <==> i in t.items && t.items[i].dictId == id && t.items[i].status == ACTIVE)
            && (i in byId.value.detail.items ==> byId.value.detail.items[i] == t.items[i])
            && (i in byCode.value.detail.items ==> byCode.value.detail.items[i] == t.items[i])
  {
    AnswerByCode(t, id);
  }

  lemma {:induction false} NoAnswer(t: Tables, id: Id, code: string)
    ensures id !in t.dicts ==> Answer(t, ById(id)).None?
    ensures (forall d :: d in t.dicts ==> t.dicts[d].code != code) ==> Answer(t, ByCode(code)).None?
  {
  }

  predicate Holds(db: Cache, now: int, key: CacheKey) {
    PlainKey(key) && Live(db, now, Name(key))
  }

  /** Every live cached answer is the one computed afresh. */
  ghost predicate CacheAgrees(db: Cache, now: int, t: Tables) {
    forall key :: Holds(db, now, key) ==> Answer(t, key) == Some(db[Name(key)].value)
  }

  /** Storing the answer under its name keeps the cache right. */
  lemma {:induction false} StoredAnswer(db: Cache, now: int, t: Tables, key: CacheKey, value: Cached, ttl: int)
    requires CacheAgrees(db, now, t) && PlainKey(key) && Answer(t, key) == Some(value)
    ensures CacheAgrees(SetEx(db, now, Name(key), value, ttl), now, t)
  {
    var db' := SetEx(db, now, Name(key), value, ttl);
    forall k | Holds(db', now, k)
      ensures Answer(t, k) == Some(db'[Name(k)].value)
    {
      if Name(k) == Name(key) {
        PlainNameInjective(k, key);
      } else {
        assert Holds(db, now, k);
      }
    }
  }

  /** A live entry of another kind has the name of this id. */
  ghost predicate Clashes(db: Cache, now: int, id: Id) {
    exists key: CacheKey :: !key.ById? && Name(key) == Name(ById(id)) && Live(db, now, Name(key))
  }

  /** For example the answer cached for a code, under the id that spells it out. */
  lemma {:induction false} CodeClashes(db: Cache, now: int, t: Tables, code: string)
    requires Consistent(t) && Live(db, now, Name(ByCode(code)))
    ensures Clashes(db, now, "data:" + code) && AsTables(t, ById("data:" + code)) == Failure(NotFound)
  {
    NamesCoincideExactly("data:" + code, code);
    assert "data:" <= "data:" + code;
  }

  /** Only the id of a clash is not plain. */
  lemma {:induction false} ClashesExactly(db: Cache, now: int, id: Id)
    ensures Clashes(db, now, id) <==> !PlainId(id) && Live(db, now, Name(ById(id)))
  {
    if Clashes(db, now, id) {
      var key: CacheKey :| !key.ById? && Name(key) == Name(ById(id)) && Live(db, now, Name(key));
      if PlainId(id) {
        PlainNameInjective(key, ById(id));
      }
    }
    if "data:" <= id {
      assert id == "data:" + id[5..];
      assert Name(ByCode(id[5..])) == Name(ById(id));
    }
    assert id == "list" ==> Name(FirstPage) == Name(ById(id));
  }

  // ---------------------------------------------------------------- which answers a change touches

  /** The tables differ at most in one dictionary and in items that are its own before and after. */
  ghost predicate SameElsewhere(t: Tables, t': Tables, d: Id) {
    && (forall id :: id != d ==> (id in t.dicts <==> id in t'.dicts))
    && (forall id :: id != d && id in t.dicts && id in t'.dicts ==> t.dicts[id] == t'.dicts[id])
    && (forall id :: id != d ==> ItemsOf(t, id, false) == ItemsOf(t', id, false))
    && (forall id :: id != d ==> ItemsOf(t, id, true) == ItemsOf(t', id, true))
  }

  /** The keys of answers a dictionary appears in. */
  ghost predicate KeyOf(t: Tables, d: Id, key: CacheKey) {
    key.FirstPage? || key == ById(d) || (d in t.dicts && key == ByCode(t.dicts[d].code))
  }

  /** Clearing the keys a dictionary had is enough: an unused code has no live entry, so the
      code a dictionary is renamed to has none either. */
  lemma {:induction false} ClearingOldKeysSuffices(db: Cache, now: int, t: Tables, t': Tables, d: Id, db': Cache)
    requires Consistent(t) && Consistent(t') && SameElsewhere(t, t', d) && CacheAgrees(db, now, t)
    requires d in t'.dicts && (d in t.dicts ==> t.dicts[d].code != t'.dicts[d].code) ==> !CodeUsed(t, t'.dicts[d].code)
    requires forall key :: Holds(db', now, key) ==> Holds(db, now, key) && db'[Name(key)] == db[Name(key)] && !KeyOf(t, d, key)
    ensures CacheAgrees(db', now, t')
  {
  }

  // ---------------------------------------------------------------- the service

  class DictService {
    const redis: RedisService<string, Cached>
    var tables: Tables

    constructor (redis: RedisService<string, Cached>)
      requires redis.db == map[]
      ensures this.redis == redis && Valid() && tables == Tables(map[], map[])
    {
      this.redis := redis;
      tables := Tables(map[], map[]);
    }

    ghost predicate Valid()
      reads this, redis
    {
      Consistent(tables) && CacheAgrees(redis.db, redis.now, tables)
    }

    /** Time passes: cached answers may expire, the rest stays. */
    method Wait(elapsed: nat)
      requires Valid()
      modifies redis`now
      ensures Valid() && redis.now == old(redis.now) + elapsed
    {
      redis.now := redis.now + elapsed;
    }

    /** id is a generated one. */
    method Create(id: Id, dict: Dict) returns (r: Result<Dict, DictError>)
      requires Valid() && id !in tables.dicts && PlainId(id)
      modifies redis`db, this`tables
      ensures Valid()
      ensures if CodeUsed(old(tables), dict.code) then r == Failure(CodeTaken) && tables == old(tables)
              else r == Success(dict) && tables == old(tables).(dicts := old(tables).dicts[id := dict])
    {
      if CodeUsed(tables, dict.code) {
        return Failure(CodeTaken);
      }
      ghost var t, db := tables, redis.db;
      tables := tables.(dicts := tables.dicts[id := dict]);
      DictCreated(t, id, dict);
      redis.Del(Name(FirstPage));
      assert forall key :: Holds(db, redis.now, key) ==> Answer(t, key).Some?;
      ClearingOldKeysSuffices(db, redis.now, t, tables, id, redis.db);
      return Success(dict);
    }

    /** The first page without a search, cached whatever the page size. */
    method FindAll() returns (r: Cached)
      requires Valid()
      modifies redis`db
      ensures Valid() && AsTables(tables, FirstPage) == Success(r)
    {
      var cached := redis.Get(Name(FirstPage));
      assert cached.Some? ==> Holds(redis.db, redis.now, FirstPage);
      if cached.Some? {
        return cached.value;
      }
      r := Page(tables.dicts);
      StoredAnswer(redis.db, redis.now, tables, FirstPage, r, CACHE_TTL);
      redis.Set(Name(FirstPage), r, CACHE_TTL);
    }

    /** The id is that of the path, unchecked. The answer is that of the tables exactly when no
        live entry of another kind has the same name. */
    method FindOne(id: Id) returns (r: Result<Cached, DictError>)
      requires Valid()
      modifies redis`db
      ensures Valid()
      ensures r == AsTables(tables, ById(id)) <==> !Clashes(old(redis.db), redis.now, id)
      ensures redis.db == if Live(old(redis.db), redis.now, Name(ById(id))) || r.Failure? then old(redis.db)
                          else old(redis.db)[Name(ById(id)) := Entry(r.value, At(redis.now + 3600000))]
      ensures Clashes(old(redis.db), redis.now, id) ==> r.Success? && AsTables(tables, ById(id)) == Failure(NotFound)
    {
      ClashesExactly(redis.db, redis.now, id);
      var cached := redis.Get(Name(ById(id)));
      assert cached.Some? && PlainId(id) ==> Holds(redis.db, redis.now, ById(id));
      if cached.Some? {
        return Success(cached.value);
      }
      if id !in tables.dicts {
        return Failure(NotFound);
      }
      var dict := Single(Detail(id, tables.dicts[id], ItemsOf(tables, id, false)));
      StoredAnswer(redis.db, redis.now, tables, ById(id), dict, CACHE_TTL);
      redis.Set(Name(ById(id)), dict, CACHE_TTL);
      return Success(dict);
    }

    method FindByCode(code: string) returns (r: Result<Cached, DictError>)
      requires Valid()
      modifies redis`db
      ensures Valid()
      ensures r == AsTables(tables, ByCode(code))
      ensures redis.db == if Live(old(redis.db), redis.now, Name(ByCode(code))) || r.Failure? then old(redis.db)
                          else old(redis.db)[Name(ByCode(code)) := Entry(r.value, At(redis.now + 7200000))]
    {
      var cached := redis.Get(Name(ByCode(code)));
      assert cached.Some? ==> Holds(redis.db, redis.now, ByCode(code));
      if cached.Some? {
        return Success(cached.value);
      }
      if !CodeUsed(tables, code) {
        return Failure(NotFound);
      }
      var id :| id in tables.dicts && tables.dicts[id].code == code;
      var dict := Single(Detail(id, tables.dicts[id], ItemsOf(tables, id, true)));
      AnswerByCode(tables, id);
      StoredAnswer(redis.db, redis.now, tables, ByCode(code), dict, CACHE_TTL * 2);
      redis.Set(Name(ByCode(code)), dict, CACHE_TTL * 2);
      return Success(dict);
    }

    /** An empty code skips the check, and the unique index rejects it when it is taken. */
    method Update(id: Id, dto: UpdateDict) returns (r: Result<Dict, DictError>)
      requires Valid()
      modifies redis`db, this`tables
      ensures Valid()
      ensures id !in old(tables).dicts ==> r == Failure(NotFound)
      ensures id in old(tables).dicts ==>
                (r.Failure? <==> dto.code.Some? && dto.code.value != old(tables).dicts[id].code && CodeUsed(old(tables), dto.code.value))
      ensures r.Failure? ==> tables == old(tables)
      ensures r.Success? ==>
                && r.value == PatchDict(old(tables).dicts[id], dto)
                && tables == old(tables).(dicts := old(tables).dicts[id := r.value])
    {
      if id !in tables.dicts {
        return Failure(NotFound);
      }
      var dict := tables.dicts[id];
      var renamed := dto.code.Some? && dto.code.value != "" && dto.code.value != dict.code;
      if renamed && CodeUsed(tables, dto.code.value) {
        return Failure(CodeTaken);
      }
      ghost var t, db := tables, redis.db;
      var result := PatchDict(dict, dto);
      if result.code != dict.code && CodeUsed(tables, result.code) {
        return Failure(Rejected);
      }
      tables := tables.(dicts := tables.dicts[id := result]);
      DictChanged(t, id, result);
      redis.Del(Name(ById(id)));
      redis.Del(Name(ByCode(dict.code)));
      if renamed {
        redis.Del(Name(ByCode(dto.code.value)));
      }
      redis.Del(Name(FirstPage));
      ClearingOldKeysSuffices(db, redis.now, t, tables, id, redis.db);
      return Success(result);
    }

    /** The items go with their dictionary. */
    method Remove(id: Id) returns (r: Result<(), DictError>)
      requires Valid()
      modifies redis`db, this`tables
      ensures Valid()
      ensures id !in old(tables).dicts ==> r == Failure(NotFound) && tables == old(tables)
      ensures id in old(tables).dicts ==> r.Success? && tables == WithoutDict(old(tables), id)
    {
      if id !in tables.dicts {
        return Failure(NotFound);
      }
      ghost var t, db := tables, redis.db;
      var dict := tables.dicts[id];
      tables := WithoutDict(tables, id);
      DictRemoved(t, id);
      redis.Del(Name(ById(id)));
      redis.Del(Name(ByCode(dict.code)));
      redis.Del(Name(FirstPage));
      ClearingOldKeysSuffices(db, redis.now, t, tables, id, redis.db);
      return Success(());
    }

    /** Clears both keys of a dictionary, and the list, after its items changed. */
    method ClearDictDataCache(dictId: Id)
      requires dictId in tables.dicts
      modifies redis`db
      ensures redis.db == Cleared(old(redis.db), tables, dictId)
    {
      redis.Del(Name(ByCode(tables.dicts[dictId].code)));
      redis.Del(Name(ById(dictId)));
      redis.Del(Name(FirstPage));
    }

    /** id is a generated one; the foreign key rejects an unknown dictionary. */
    method CreateData(id: Id, item: Item) returns (r: Result<Item, DictError>)
      requires Valid() && id !in tables.items
      modifies redis`db, this`tables
      ensures Valid()
      ensures if item.dictId !in old(tables).dicts then r == Failure(Rejected) && tables == old(tables)
              else r == Success(item) && tables == old(tables).(items := old(tables).items[id := item])
    {
      if item.dictId !in tables.dicts {
        return Failure(Rejected);
      }
      ghost var t, db := tables, redis.db;
      tables := tables.(items := tables.items[id := item]);
      ClearDictDataCache(item.dictId);
      ItemChanged(t, tables, id, item.dictId);
      ClearingOldKeysSuffices(db, redis.now, t, tables, item.dictId, redis.db);
      return Success(item);
    }

    method RemoveData(id: Id) returns (r: Result<(), DictError>)
      requires Valid()
      modifies redis`db, this`tables
      ensures Valid()
      ensures if id !in old(tables).items then r == Failure(NotFound) && tables == old(tables)
              else r.Success? && tables == old(tables).(items := old(tables).items - {id})
    {
      if id !in tables.items {
        return Failure(NotFound);
      }
      ghost var t, db := tables, redis.db;
      var dictId := tables.items[id].dictId;
      tables := tables.(items := tables.items - {id});
      ClearDictDataCache(dictId);
      ItemChanged(t, tables, id, dictId);
      ClearingOldKeysSuffices(db, redis.now, t, tables, dictId, redis.db);
      return Success(());
    }

    /** Only the dictionary the item belonged to is cleared: the cache stays right exactly when
        the item is not moved into a dictionary with a live cached answer it belongs to. */
    method UpdateData(id: Id, dto: UpdateItem) returns (r: Result<Item, DictError>)
      requires Valid()
      modifies redis`db, this`tables
      ensures r.Failure? ==> Valid() && tables == old(tables)
      ensures r.Failure? <==> id !in old(tables).items || (dto.dictId.Some? && dto.dictId.value !in old(tables).dicts)
      ensures r.Success? ==>
                && r.value == PatchItem(old(tables).items[id], dto)
                && tables == old(tables).(items := old(tables).items[id := r.value])
                && (Valid() <==> MoveUnnoticed(old(redis.db), redis.now, old(tables), old(tables).items[id].dictId, r.value))
    {
      if id !in tables.items {
        return Failure(NotFound);
      }
      ghost var t, db := tables, redis.db;
      var data := tables.items[id];
      var result := PatchItem(data, dto);
      if result.dictId !in tables.dicts {
        return Failure(Rejected);
      }
      tables := tables.(items := tables.items[id := result]);
      ClearDictDataCache(data.dictId);
      UpdateKeepsCacheExactly(db, redis.now, t, id, result);
      return Success(result);
    }
  }

  function WithoutDict(t: Tables, d: Id): Tables {
    Tables(t.dicts - {d}, map i | i in t.items && t.items[i].dictId != d :: t.items[i])
  }

  function Cleared(db: Cache, t: Tables, d: Id): Cache
    requires d in t.dicts
  {
    Remove(Remove(Remove(db, Name(ByCode(t.dicts[d].code))), Name(ById(d))), Name(FirstPage))
  }

  /** A removed dictionary is gone with its items, by id and by code, and all else stays. */
  lemma {:induction false} RemovedDict(t: Tables, d: Id, other: Id, i: Id)
    requires Consistent(t) && d in t.dicts
    ensures var t' := WithoutDict(t, d);
            && Answer(t', ById(d)).None? && Answer(t', ByCode(t.dicts[d].code)).None?
            && (other in t'.dicts <==> other in t.dicts && other != d) && (other in t'.dicts ==> t'.dicts[other] == t.dicts[other])
            && (i in t'.items <==> i in t.items && t.items[i].dictId != d) && (i in t'.items ==> t'.items[i] == t.items[i])
  {
  }

  lemma {:induction false} OthersItemsStay(t: Tables, d: Id, other: Id, onlyActive: bool)
    requires other != d
    ensures ItemsOf(t, other, onlyActive) == ItemsOf(WithoutDict(t, d), other, onlyActive)
  {
  }

  lemma {:induction false} DictRemoved(t: Tables, d: Id)
    requires Consistent(t)
    ensures Consistent(WithoutDict(t, d)) && SameElsewhere(t, WithoutDict(t, d), d)
  {
    forall other | other != d
      ensures ItemsOf(t, other, false) == ItemsOf(WithoutDict(t, d), other, false)
      ensures ItemsOf(t, other, true) == ItemsOf(WithoutDict(t, d), other, true)
    {
      OthersItemsStay(t, d, other, false);
      OthersItemsStay(t, d, other, true);
    }
  }

  lemma {:induction false} DictCreated(t: Tables, d: Id, dict: Dict)
    requires Consistent(t) && d !in t.dicts && PlainId(d) && !CodeUsed(t, dict.code)
    ensures var t' := t.(dicts := t.dicts[d := dict]); Consistent(t') && SameElsewhere(t, t', d)
  {
  }

  lemma {:induction false} DictChanged(t: Tables, d: Id, dict: Dict)
    requires Consistent(t) && d in t.dicts && (dict.code != t.dicts[d].code ==> !CodeUsed(t, dict.code))
    ensures var t' := t.(dicts := t.dicts[d := dict]); Consistent(t') && SameElsewhere(t, t', d)
  {
  }

  /** Apart from one item, the tables are the same. */
  ghost predicate SameBut(t: Tables, t': Tables, id: Id) {
    && t'.dicts == t.dicts
    && (forall i :: i != id ==> (i in t.items <==> i in t'.items))
    && (forall i :: i != id && i in t.items && i in t'.items ==> t.items[i] == t'.items[i])
  }

  lemma {:induction false} OthersKeepItems(t: Tables, t': Tables, id: Id, d: Id, onlyActive: bool)
    requires SameBut(t, t', id)
    requires (id in t.items ==> t.items[id].dictId != d) && (id in t'.items ==> t'.items[id].dictId != d)
    ensures ItemsOf(t, d, onlyActive) == ItemsOf(t', d, onlyActive)
  {
  }

  /** An item that is nobody else's before and after leaves the other dictionaries alone. */
  lemma {:induction false} ItemChanged(t: Tables, t': Tables, id: Id, d: Id)
    requires SameBut(t, t', id)
    requires (id in t.items ==> t.items[id].dictId == d) && (id in t'.items ==> t'.items[id].dictId == d)
    ensures SameElsewhere(t, t', d)
  {
    forall other | other != d
      ensures ItemsOf(t, other, false) == ItemsOf(t', other, false)
      ensures ItemsOf(t, other, true) == ItemsOf(t', other, true)
    {
      OthersKeepItems(t, t', id, other, false);
      OthersKeepItems(t, t', id, other, true);
    }
  }

  /** The item stays with its dictionary, or the cache holds no answer it would have to be in:
      none by id, and none by code when it is active. */
  ghost predicate MoveUnnoticed(db: Cache, now: int, t: Tables, from: Id, item: Item)
    requires item.dictId in t.dicts
  {
    item.dictId == from
    || (!Live(db, now, Name(ById(item.dictId))) &&
        (item.status == ACTIVE ==> !Live(db, now, Name(ByCode(t.dicts[item.dictId].code)))))
  }

  lemma {:induction false} UpdateKeepsCacheExactly(db: Cache, now: int, t: Tables, id: Id, item: Item)
    requires Consistent(t) && CacheAgrees(db, now, t) && id in t.items && item.dictId in t.dicts
    ensures var from, t' := t.items[id].dictId, t.(items := t.items[id := item]);
            Consistent(t') && (CacheAgrees(Cleared(db, t, from), now, t') <==> MoveUnnoticed(db, now, t, from, item))
  {
    var from, t' := t.items[id].dictId, t.(items := t.items[id := item]);
    var db' := Cleared(db, t, from);
    if from == item.dictId {
      ItemChanged(t, t', id, from);
      ClearingOldKeysSuffices(db, now, t, t', from, db');
    } else if MoveUnnoticed(db, now, t, from, item) {
      forall key | Holds(db', now, key)
        ensures Answer(t', key) == Some(db'[Name(key)].value)
      {
        assert Holds(db, now, key);
        MoveElsewhere(t, id, item, key);
      }
    } else {
      MoveNoticed(db, now, t, id, item);
    }
  }

  /** Where the moved item appears before and after. */
  lemma {:induction false} MovedItems(t: Tables, id: Id, item: Item, d: Id, onlyActive: bool)
    requires id in t.items && d != t.items[id].dictId
    ensures var t' := t.(items := t.items[id := item]);
            ItemsOf(t', d, onlyActive) ==
            if d == item.dictId && (onlyActive ==> item.status == ACTIVE) then ItemsOf(t, d, onlyActive)[id := item]
            else ItemsOf(t, d, onlyActive)
    ensures id !in ItemsOf(t, d, onlyActive)
  {
  }

  /** An answer that is neither one of the old dictionary nor one the item enters. */
  lemma {:induction false} MoveElsewhere(t: Tables, id: Id, item: Item, key: CacheKey)
    requires Consistent(t) && id in t.items && item.dictId in t.dicts && t.items[id].dictId != item.dictId
    requires !KeyOf(t, t.items[id].dictId, key) && key != ById(item.dictId)
    requires key == ByCode(t.dicts[item.dictId].code) ==> item.status != ACTIVE
    ensures Answer(t.(items := t.items[id := item]), key) == Answer(t, key)
  {
    var t' := t.(items := t.items[id := item]);
    if key.ById? {
      MovedItems(t, id, item, key.id, false);
    } else if CodeUsed(t, key.code) {
      var d :| d in t.dicts && t.dicts[d].code == key.code;
      AnswerByCode(t, d);
      AnswerByCode(t', d);
      MovedItems(t, id, item, d, true);
    }
  }

  /** A live answer the item should enter is left without it. */
  lemma {:induction false} MoveNoticed(db: Cache, now: int, t: Tables, id: Id, item: Item)
    requires Consistent(t) && CacheAgrees(db, now, t) && id in t.items && item.dictId in t.dicts
    requires !MoveUnnoticed(db, now, t, t.items[id].dictId, item)
    ensures !CacheAgrees(Cleared(db, t, t.items[id].dictId), now, t.(items := t.items[id := item]))
  {
    var from, to, t' := t.items[id].dictId, item.dictId, t.(items := t.items[id := item]);
    var db' := Cleared(db, t, from);
    AnswerByCode(t, to);
    AnswerByCode(t', to);
    MovedItems(t, id, item, to, false);
    MovedItems(t, id, item, to, true);
    var key := if Live(db, now, Name(ById(to))) then ById(to) else ByCode(t.dicts[to].code);
    KeyNotCleared(db, now, t, from, key);
    assert Holds(db, now, key) && Holds(db', now, key);
    assert id !in Answer(t, key).value.detail.items;
    assert id in Answer(t', key).value.detail.items;
  }

  /** Clearing one dictionary leaves the entries of the others. */
  lemma {:induction false} KeyNotCleared(db: Cache, now: int, t: Tables, d: Id, key: CacheKey)
    requires Consistent(t) && d in t.dicts && Holds(db, now, key) && !KeyOf(t, d, key)
    ensures Holds(Cleared(db, t, d), now, key) && Cleared(db, t, d)[Name(key)] == db[Name(key)]
  {
    if Name(key) == Name(ById(d)) {
      PlainNameInjective(key, ById(d));
    }
    if Name(key) == Name(ByCode(t.dicts[d].code)) {
      PlainNameInjective(key, ByCode(t.dicts[d].code));
    }
    if Name(key) == Name(FirstPage) {
      PlainNameInjective(key, FirstPage);
    }
  }
}
