/**
 * The single request sent to the watchlist service: a POST of a JSON payload
 * with two parallel one-element lists carrying the same identifier, to a fixed
 * endpoint with the key appended verbatim as the `apikey` query parameter.
 */
module Submission {
  import opened Wrappers

  const Endpoint: string := "https://api.mdblist.com/watchlist/items/add?apikey="

  /** `{"imdb": id}` */
  datatype Item = Item(imdb: string)

  /** `{"movies": [...], "shows": [...]}` */
  datatype Payload = Payload(movies: seq<Item>, shows: seq<Item>)

  datatype Request = Request(verb: string, url: string, contentType: string, payload: Payload)

  /** The request `sendToMDBList` builds for an identifier and a key. */
  function BuildRequest(id: string, key: string): (r: Request)
    ensures r.verb == "POST" && r.contentType == "application/json"
    ensures KeyOf(r.url) == Some(key)
    ensures IdOf(r.payload) == Some(id)
  {
    var url := Endpoint + key;
    assert url[|Endpoint|..] == key;
    Request("POST", url, "application/json", Payload([Item(id)], [Item(id)]))
  }

  /** The key a URL carries: what follows the fixed endpoint, unescaped. */
  function KeyOf(url: string): (k: Option<string>)
    ensures k.Some? <==> Endpoint <= url
    ensures k.Some? ==> url == Endpoint + k.value
  {
    if Endpoint <= url then Some(url[|Endpoint|..]) else None
  }

  /** The identifier a payload carries: both lists hold one item, and the same one. */
  function IdOf(p: Payload): (id: Option<string>)
    ensures id.Some? <==> |p.movies| == 1 && p.movies == p.shows
    ensures id.Some? ==> p == Payload([Item(id.value)], [Item(id.value)])
  {
    if |p.movies| == 1 && p.movies == p.shows then Some(p.movies[0].imdb) else None
  }

  /** Different identifiers or keys give different requests. */
  lemma BuildRequestIsInjective(id1: string, key1: string, id2: string, key2: string)
    requires BuildRequest(id1, key1) == BuildRequest(id2, key2)
    ensures id1 == id2 && key1 == key2
  {
    assert KeyOf(BuildRequest(id1, key1).url) == Some(key1);
    assert IdOf(BuildRequest(id1, key1).payload) == Some(id1);
  }
}
