/**
 * The credential store: the private preferences file `MDBListPrefs`, of which
 * the app reads and writes one entry, `MDBListApiKey`.
 */
module Credentials {
  import opened Wrappers

  const PrefsName: string := "MDBListPrefs"
  const ApiKeyName: string := "MDBListApiKey"

  /** `getString(MDBListApiKey, null)` on the entries of the file. */
  function StoredKey(entries: map<string, string>): (k: Option<string>)
    ensures k.Some? <==> ApiKeyName in entries
    ensures k.Some? ==> k.value == entries[ApiKeyName]
  {
    if ApiKeyName in entries then Some(entries[ApiKeyName]) else None
  }

  /** `putString(MDBListApiKey, key)` on the entries of the file. */
  function WithKey(entries: map<string, string>, key: string): (e: map<string, string>)
    ensures e.Keys == entries.Keys + {ApiKeyName}
    ensures e[ApiKeyName] == key
    ensures forall name :: name in entries && name != ApiKeyName ==> e[name] == entries[name]
  {
    entries[ApiKeyName := key]
  }

  /** Saving and then reading gives back exactly the saved key, whatever was there before. */
  lemma SavedKeyIsRead(entries: map<string, string>, key: string)
    ensures StoredKey(WithKey(entries, key)) == Some(key)
  {
  }

  /** A second save overwrites the first. */
  lemma SaveOverwrites(entries: map<string, string>, first: string, second: string)
    ensures WithKey(WithKey(entries, first), second) == WithKey(entries, second)
  {
  }

  /** One preferences file, opened by name. */
  class Preferences {
    const name: string
    var entries: map<string, string>

    /** A file that nothing has been written to yet. */
    constructor (name: string)
      ensures this.name == name && entries == map[]
    {
      this.name := name;
      entries := map[];
    }

    /** `getApiKey` */
    method GetApiKey() returns (k: Option<string>)
      ensures k == StoredKey(entries)
    {
      if ApiKeyName in entries {
        k := Some(entries[ApiKeyName]);
      } else {
        k := None;
      }
    }

    /** `saveApiKey`: only the one entry changes. */
    method SaveApiKey(key: string)
      modifies this
      ensures entries == WithKey(old(entries), key)
    {
      entries := entries[ApiKeyName := key];
    }
  }

  /** Before any save the key is absent; after a save it reads back as saved. */
  method FreshStoreRoundTrip(key: string) returns (before: Option<string>, after: Option<string>)
    ensures before == None
    ensures after == Some(key)
  {
    var prefs := new Preferences(PrefsName);
    before := prefs.GetApiKey();
    prefs.SaveApiKey(key);
    after := prefs.GetApiKey();
  }
}
