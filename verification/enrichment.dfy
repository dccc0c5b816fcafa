/**
 * `scrapeItem` and `itemQuality` (src/stores/bankStore.js:171-222) with the
 * cache write of `insertScrapedItem` (lines 329-336). The `scraped_items`
 * collection is a map from item id to its stored record; the collection
 * query, the remote item lookup, the icon download and the cache write are
 * oracle outcomes collected in a `World`.
 */
module Enrichment {
  import opened Wrappers

  /** `{ item_id, name, quality, icon, url }` */
  datatype ScrapedItem = ScrapedItem(itemId: string, name: string, quality: nat, icon: string, url: string)

  /** The fields of the remote item lookup's `response.data` that are read. */
  datatype Remote = Remote(name: string, quality: string, icon: string, url: string)

  /** The outcome of one foreign call: its result, or a thrown error. */
  datatype Fetch<T> = Ok(data: T) | Err

  /** The outcomes of the foreign calls one `scrapeItem` would make: the
      cache query, the remote lookup, the base64 text of the downloaded
      icon, and whether the cache write succeeds. */
  datatype World = World(query: bool, remote: Fetch<Remote>, iconData: Fetch<string>, write: bool)

  /** The scraped-item cache, keyed by the id the record was stored under. */
  type Cache = map<string, ScrapedItem>

  /** Every stored record is stored under its own id, so the query
      `where('item_id', '==', id)` finds exactly the record at key `id`. */
  predicate Keyed(cache: Cache) {
    forall k | k in cache :: cache[k].itemId == k
  }

  // ---------------------------------------------------------------------
  // itemQuality

  const QualityNames: seq<string> := ["Poor", "Common", "Uncommon", "Rare", "Epic", "Legendary"]

  /** The default rank, used for any quality name outside the table. */
  const DefaultQuality := 1

  /** `map[qualityName] ?? 1`: the rank of a quality name, Poor..Legendary
      being 0..5, and Common's rank for anything else. */
  function ItemQuality(qualityName: string): (q: nat)
    ensures q < |QualityNames|
    ensures qualityName !in QualityNames ==> q == DefaultQuality
  {
    match qualityName
    case "Poor" => 0
    case "Common" => 1
    case "Uncommon" => 2
    case "Rare" => 3
    case "Epic" => 4
    case "Legendary" => 5
    case _ => DefaultQuality
  }

  /** Every listed name maps to its own position in the table, so the table
      is read back exactly. */
  lemma ItemQualityOfName(q: nat)
    requires q < |QualityNames|
    ensures ItemQuality(QualityNames[q]) == q
  {
  }

  /** A rank other than Common's comes only from its own table name. */
  lemma ItemQualityNamed(qualityName: string)
    requires ItemQuality(qualityName) != DefaultQuality
    ensures qualityName == QualityNames[ItemQuality(qualityName)]
  {
  }

  // ---------------------------------------------------------------------
  // scrapeItem

  /** The record returned when any step throws: stored under the id it was
      asked for, at Common quality, without an icon or a link. */
  function Placeholder(id: string): (r: ScrapedItem)
    ensures r.itemId == id && r.quality < |QualityNames| && QualityNames[r.quality] == "Common"
    ensures r.icon == "" && r.url == "#"
    ensures r.name == "Unknown Item (" + id + ")"
  {
    ScrapedItem(id, "Unknown Item (" + id + ")", DefaultQuality, "", "#")
  }

  /** `getIconData`: the downloaded image as a data URI. */
  function IconUri(iconData: string): string {
    "data:image/jpeg;base64," + iconData
  }

  /** The record assembled from a successful lookup and icon download. */
  function Built(id: string, remote: Remote, iconData: string): ScrapedItem {
    ScrapedItem(id, remote.name, ItemQuality(remote.quality), IconUri(iconData), remote.url)
  }

  /** What one call leaves behind: the record returned, the cache after it,
      and whether the remote lookup was contacted. */
  datatype Resolution = Resolution(item: ScrapedItem, cache: Cache, fetched: bool)

  /** `scrapeItem(id)` against the cache and the foreign outcomes in `w`.
      It never fails: every error ends in the placeholder, and a failed
      cache write is swallowed by `insertScrapedItem`. */
  function Resolve(w: World, cache: Cache, id: string): (r: Resolution)
    ensures w.query && id in cache ==> r == Resolution(cache[id], cache, false)
    ensures r.fetched <==> w.query && id !in cache
    ensures forall k | k in cache :: k in r.cache && r.cache[k] == cache[k]
    ensures forall k | k in r.cache && k !in cache :: k == id && r.cache[k] == r.item
  {
    if !w.query then Resolution(Placeholder(id), cache, false)
    else if id in cache then Resolution(cache[id], cache, false)
    else
      match (w.remote, w.iconData)
      case (Ok(remote), Ok(iconData)) =>
        var item := Built(id, remote, iconData);
        Resolution(item, if w.write then cache[id := item] else cache, true)
      case _ => Resolution(Placeholder(id), cache, true)
  }

  /** Which record a call returns. A hit returns the stored record; a failed
      query, lookup or download returns the placeholder; otherwise the
      record is built from the lookup, whether or not it could be stored. */
  lemma ResolveItem(w: World, cache: Cache, id: string)
    ensures var r := Resolve(w, cache, id);
      && (!w.query ==> r.item == Placeholder(id))
      && (w.query && id !in cache && (w.remote.Err? || w.iconData.Err?) ==> r.item == Placeholder(id))
      && (w.query && id !in cache && w.remote.Ok? && w.iconData.Ok? ==>
            r.item == Built(id, w.remote.data, w.iconData.data))
  {
  }

  /** The cache gains the built record exactly when the lookup, the download
      and the write all succeed after a miss; otherwise it is unchanged. */
  lemma ResolveCache(w: World, cache: Cache, id: string)
    ensures var r := Resolve(w, cache, id);
      && (r.cache != cache <==> w.query && id !in cache && w.remote.Ok? && w.iconData.Ok? && w.write)
      && (r.cache != cache ==> r.cache == cache[id := r.item])
  {
    var r := Resolve(w, cache, id);
    if w.query && id !in cache && w.remote.Ok? && w.iconData.Ok? && w.write {
      assert id in r.cache && id !in cache;
    }
  }

  /** Against a keyed cache the returned record carries the requested id,
      and the cache stays keyed. */
  lemma ResolveKeyed(w: World, cache: Cache, id: string)
    requires Keyed(cache)
    ensures Resolve(w, cache, id).item.itemId == id
    ensures Keyed(Resolve(w, cache, id).cache)
  {
  }

  /** Every rank a call can return is one of the table's, given a cache of
      records that were built by earlier calls. */
  lemma ResolveQuality(w: World, cache: Cache, id: string)
    requires forall k | k in cache :: cache[k].quality < |QualityNames|
    ensures Resolve(w, cache, id).item.quality < |QualityNames|
    ensures forall k | k in Resolve(w, cache, id).cache :: Resolve(w, cache, id).cache[k].quality < |QualityNames|
  {
  }

  /** Once a record is stored, every later call whose query succeeds
      returns it without contacting the remote lookup, whatever the other
      outcomes are: a second call repeats the first. */
  lemma ResolveStored(w: World, w': World, cache: Cache, id: string)
    requires w'.query
    requires id in Resolve(w, cache, id).cache
    ensures var r := Resolve(w, cache, id);
      && Resolve(w', r.cache, id) == Resolution(r.cache[id], r.cache, false)
      && (w.query ==> r.cache[id] == r.item)
  {
  }
}
