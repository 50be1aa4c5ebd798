/** The API-key dialog. Opening it loads the stored key into the input field; saving trims
    the input and, when something is left, writes it to the browser's key-value store under
    one fixed key and closes the dialog, otherwise shows an error notice and stays open. */
module ApiKey {
  import opened Options
  import opened Text

  const StorageKey: string := "openai_api_key"

  /** The key a save would store: the trimmed input, or nothing when the input is blank. */
  function ValidatedKey(input: string): (r: Option<string>)
    ensures r.None? <==> IsBlank(input)
    ensures r.Some? ==> r.value == Trim(input)
    ensures r.Some? ==> r.value != [] && !IsSpace(r.value[0]) && !IsSpace(r.value[|r.value| - 1])
  {
    TrimEmptyIffBlank(input);
    var k := Trim(input);
    if k != [] then Some(k) else None
  }

  /** The value the dialog shows when opened: the stored key, or "" without one. */
  function StoredKey(store: map<string, string>): string {
    if StorageKey in store then store[StorageKey] else ""
  }

  /** The store after a save of `input`. */
  function SavedStore(store: map<string, string>, input: string): (r: map<string, string>)
    ensures ValidatedKey(input).None? ==> r == store
    ensures ValidatedKey(input).Some? ==> StorageKey in r && r[StorageKey] == Trim(input)
    ensures forall k :: k != StorageKey ==> (k in r <==> k in store)
    ensures forall k :: k != StorageKey && k in store ==> r[k] == store[k]
  {
    match ValidatedKey(input)
    case None => store
    case Some(key) => store[StorageKey := key]
  }

  /** "  sk-test  " is stored as "sk-test". */
  lemma SavesTrimmedKey(store: map<string, string>)
    ensures ValidatedKey("  sk-test  ") == Some("sk-test")
    ensures StoredKey(SavedStore(store, "  sk-test  ")) == "sk-test"
  {
    assert "  sk-test  " == "  " + "sk-test" + "  ";
    TrimOfPadded("  ", "sk-test", "  ");
  }

  /** Saving the same input again changes nothing, and neither does re-saving the key the
      dialog loads back after a successful save: the stored key is already trimmed. */
  lemma {:induction false} SaveIdempotent(store: map<string, string>, input: string)
    ensures SavedStore(SavedStore(store, input), input) == SavedStore(store, input)
    ensures ValidatedKey(input).Some? ==>
      var saved := SavedStore(store, input);
      SavedStore(saved, StoredKey(saved)) == saved
  {
    var saved := SavedStore(store, input);
    match ValidatedKey(input)
    case None =>
    case Some(k) =>
      assert saved == store[StorageKey := k];
      assert saved[StorageKey := k] == saved;
      assert StoredKey(saved) == k;
      TrimIdempotent(input);
      assert ValidatedKey(k) == Some(k);
  }

  /** What the save handler reports: the success notice, or the destructive error notice. */
  datatype SaveOutcome = KeySaved | InvalidKey

  /** The dialog: whether it is open, its input field, and the key-value store it writes. */
  class ApiKeyDialog {
    var open: bool
    var apiKey: string
    var store: map<string, string>

    constructor (store0: map<string, string>)
      ensures !open && apiKey == "" && store == store0
    {
      open := false;
      apiKey := "";
      store := store0;
    }

    /** The parent sets the `open` prop. The loading effect depends on `open` alone, so it
        runs only when the prop changes, and it loads the stored key only when the dialog
        goes from closed to open; an edit in an open dialog survives a repeated open. */
    method SetOpen(o: bool)
      modifies this
      ensures open == o && store == old(store)
      ensures o && !old(open) ==> apiKey == StoredKey(store)
      ensures !(o && !old(open)) ==> apiKey == old(apiKey)
    {
      var opening := o && !open;
      open := o;
      if opening {
        if StorageKey in store {
          apiKey := store[StorageKey];
        } else {
          apiKey := "";
        }
      }
    }

    method EditKey(text: string)
      modifies this
      ensures apiKey == text && open == old(open) && store == old(store)
    {
      apiKey := text;
    }

    /** `handleSave`. */
    method Save() returns (outcome: SaveOutcome)
      modifies this
      ensures apiKey == old(apiKey)
      ensures store == SavedStore(old(store), old(apiKey))
      ensures outcome == InvalidKey <==> IsBlank(old(apiKey))
      ensures outcome == KeySaved ==> !open
      ensures outcome == InvalidKey ==> open == old(open)
    {
      TrimEmptyIffBlank(apiKey);
      var trimmed := Trim(apiKey);
      if trimmed != [] {
        store := store[StorageKey := trimmed];
        outcome := KeySaved;
        open := false;
      } else {
        outcome := InvalidKey;
      }
    }
  }
}
