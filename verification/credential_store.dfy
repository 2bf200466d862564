/**
 * The browser `localStorage` as far as the client's credentials go: a string
 * map in which exactly two keys, `access_token` and `refresh_token`, are written.
 */
module CredentialStore {
  import opened Wrappers

  type Store = map<string, string>

  const AccessKey: string := "access_token"
  const RefreshKey: string := "refresh_token"

  /** `localStorage.getItem(key)`: null when the key is absent. */
  function Get(store: Store, key: string): Option<string> {
    if key in store then Some(store[key]) else None
  }

  /** The string `localStorage.setItem` stores for a value that may be `undefined`. */
  function JsString(v: Option<string>): string {
    match v
    case Some(s) => s
    case None => "undefined"
  }

  /** Both `removeItem` calls: drops the two credential keys and nothing else. */
  function Clear(store: Store): (r: Store)
    ensures AccessKey !in r && RefreshKey !in r
    ensures OnlyCredentialsChanged(store, r)
  {
    store - {AccessKey, RefreshKey}
  }

  /** The two credentials are both stored or both absent. */
  predicate Paired(store: Store) {
    (AccessKey in store) == (RefreshKey in store)
  }

  /** Every key other than the two credential keys is untouched. */
  predicate OnlyCredentialsChanged(before: Store, after: Store) {
    && (forall k | k in before && k != AccessKey && k != RefreshKey :: k in after && after[k] == before[k])
    && (forall k | k in after && k != AccessKey && k != RefreshKey :: k in before)
  }

  lemma OnlyCredentialsChangedTransitive(a: Store, b: Store, c: Store)
    requires OnlyCredentialsChanged(a, b) && OnlyCredentialsChanged(b, c)
    ensures OnlyCredentialsChanged(a, c)
  {
  }
}
