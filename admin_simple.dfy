/**
 * The JSON editor admin page: it validates the catalog document in the
 * editor, copies or downloads it only when it is valid, appends a sample
 * entry with the next id, and previews the first four entries.
 *
 * The editor's text is seen through its parse: `None` when it is not JSON,
 * otherwise the parsed `{ earings: [...] }` document.
 */
module AdminSimple {
  import opened Options
  import opened JsBuiltins
  import opened Catalog

  /** How many entries the preview shows at most. */
  const PreviewMax := 4

  /** The outcome of `validateJSON`; `MissingFields` carries the 1-based number of the first bad entry. */
  datatype Validation = ValidJson | NotJson | NoEaringsArray | MissingFields(entry: nat)

  /** `earing.id && earing.name && earing.price`: a non-zero id and a non-empty name and price. */
  predicate HasRequiredFields(e: Item) {
    e.id != 0 && e.name != "" && e.price != ""
  }

  /** A document `validateJSON` accepts: an `earings` array whose every entry has its required fields. */
  predicate ValidDocument(doc: Document) {
    doc.earings.Some? && forall i :: 0 <= i < |doc.earings.value| ==> HasRequiredFields(doc.earings.value[i])
  }

  /** The photo shown for the sample entry. */
  const SamplePhoto: string :=
    "https://images.unsplash.com/photo-1599643478510-a349f327f8c9?ixlib=rb-4.0.3&auto=format&fit=crop&w=600&q=80"

  /** `lastId`: the largest id, or 0 for an empty list. */
  function LastId(items: seq<Item>): (r: int)
    ensures |items| == 0 ==> r == 0
    ensures forall i :: 0 <= i < |items| ==> items[i].id <= r
    ensures |items| > 0 ==> exists i :: 0 <= i < |items| && items[i].id == r
  {
    if |items| > 0 then MaxId(items) else 0
  }

  /** The sample entry `addSampleEaring` appends, numbered `id`. */
  function SampleEaring(id: int): (e: Item)
    ensures e.id == id && e.name == "New Earring " + IntToString(id)
    ensures e.name != "" && e.price != "" && |e.images| == 1
  {
    Item(id, "New Earring " + IntToString(id), "₱299", "Beautiful handcrafted earrings.",
         "Sterling Silver", "2.5 cm", "Lightweight", "Butterfly Back", "Yes",
         "Keep dry and clean", "stud", 3, true, [SamplePhoto])
  }

  /** The JSON editor page rule for a new id is the admin form's: one past the largest, or 1. */
  lemma SampleIdIsNextId(items: seq<Item>)
    ensures LastId(items) + 1 == NextId(items)
  {
  }

  /** The entries after `addSampleEaring`, when the editor holds an `earings` array. */
  function WithSample(items: seq<Item>): (r: seq<Item>)
    ensures |r| == |items| + 1 && r[..|items|] == items
    ensures r[|items|] == SampleEaring(NextId(items))
    ensures r[|items|].id == NextId(items)
    ensures forall i :: 0 <= i < |items| ==> r[i].id < r[|items|].id
  {
    SampleIdIsNextId(items);
    items + [SampleEaring(LastId(items) + 1)]
  }

  /**
   * Appending a sample to a valid document keeps it valid whenever the ids
   * are not negative: the new id is then at least 1.
   */
  lemma SampleKeepsDocumentValid(items: seq<Item>)
    requires ValidDocument(Document(Some(items)))
    requires forall i :: 0 <= i < |items| ==> items[i].id >= 0
    ensures ValidDocument(Document(Some(WithSample(items))))
  {
    var r := WithSample(items);
    forall i | 0 <= i < |r|
      ensures HasRequiredFields(r[i])
    {
      if i < |items| {
        assert r[i] == r[..|items|][i];
      } else {
        assert r[i] == SampleEaring(LastId(items) + 1);
      }
    }
  }

  /** The preview's entries, when the editor holds an `earings` array: `earings.slice(0, 4)`. */
  function PreviewOf(content: Option<Document>): (r: Option<seq<Item>>)
    ensures r.Some? <==> content.Some? && content.value.earings.Some?
    ensures r.Some? ==>
      var all := content.value.earings.value;
      |r.value| == Min(PreviewMax, |all|) && r.value == all[..|r.value|]
  {
    if content.Some? && content.value.earings.Some? then
      Some(Slice(content.value.earings.value, 0, PreviewMax))
    else None
  }

  /** The built-in document the editor falls back to. */
  const DefaultDocument: Document := Document(Some([
    Item(1, "Pearl Drops", "₱299",
         "Elegant freshwater pearl drops that add a touch of sophistication to any outfit.",
         "Freshwater Pearls with Sterling Silver", "2.5 cm length",
         "Lightweight (approx. 4g per pair)", "Butterfly Back", "Yes",
         "Wipe with soft cloth after use", "dangle", 5, true,
         ["https://images.unsplash.com/photo-1599643478510-a349f327f8c9?ixlib=rb-4.0.3&auto=format&fit=crop&w=600&q=80",
          "https://images.unsplash.com/photo-1611591437281-460bfbe1220a?ixlib=rb-4.0.3&auto=format&fit=crop&w=600&q=80"])
  ]))

  /** The built-in document passes validation. */
  lemma DefaultDocumentIsValid()
    ensures ValidDocument(DefaultDocument)
  {
    var e := DefaultDocument.earings.value[0];
    assert e.name[0] == 'P' && e.price[0] == '₱';
  }

  /**
   * The JSON editor: the parse of its text and the entries previewed below
   * it. A `None` preview shows no entries: the error message after a text
   * without an `earings` array, or nothing before the first load.
   */
  class JsonEditor {
    var content: Option<Document>
    var preview: Option<seq<Item>>

    /** The page before anything is loaded: an empty editor, which is not JSON. */
    constructor ()
      ensures content == None && preview == None
    {
      content := None;
      preview := None;
    }

    /**
     * `validateJSON`: not JSON, no `earings` array, or the number of the
     * first entry missing its id, name or price; valid when none applies.
     */
    method ValidateJSON() returns (outcome: Validation)
      ensures content.None? <==> outcome == NotJson
      ensures content.Some? && content.value.earings.None? <==> outcome == NoEaringsArray
      ensures outcome == ValidJson <==> content.Some? && ValidDocument(content.value)
      ensures outcome.MissingFields? ==>
        content.Some? && content.value.earings.Some? &&
        var all := content.value.earings.value;
        1 <= outcome.entry <= |all| && !HasRequiredFields(all[outcome.entry - 1]) &&
        forall k :: 0 <= k < outcome.entry - 1 ==> HasRequiredFields(all[k])
    {
      if content.None? {
        return NotJson;
      }
      if content.value.earings.None? {
        return NoEaringsArray;
      }
      var all := content.value.earings.value;
      var index := 0;
      while index < |all|
        invariant 0 <= index <= |all|
        invariant forall k :: 0 <= k < index ==> HasRequiredFields(all[k])
      {
        if !HasRequiredFields(all[index]) {
          return MissingFields(index + 1);
        }
        index := index + 1;
      }
      return ValidJson;
    }

    /** `copyJSON`: the text goes to the clipboard only when it validates. */
    method CopyJSON() returns (clipboard: Option<Document>)
      ensures clipboard.Some? <==> content.Some? && ValidDocument(content.value)
      ensures clipboard.Some? ==> clipboard == content
    {
      var outcome := ValidateJSON();
      if outcome != ValidJson {
        return None;
      }
      return content;
    }

    /** `downloadJSON`: a download of the document as `earings-data.json`, only when it validates. */
    method DownloadJSON() returns (download: Option<Download>)
      ensures download.Some? <==> content.Some? && ValidDocument(content.value)
      ensures download.Some? ==> download.value == Download(DataFileName, content.value)
    {
      var outcome := ValidateJSON();
      if outcome != ValidJson {
        return None;
      }
      return Some(Download(DataFileName, content.value));
    }

    /** `updatePreview`: the first four entries, or the error when there is no `earings` array. */
    method UpdatePreview()
      modifies this`preview
      ensures preview == PreviewOf(content)
    {
      if content.Some? && content.value.earings.Some? {
        preview := Some(Slice(content.value.earings.value, 0, PreviewMax));
      } else {
        preview := None;
      }
    }

    /**
     * `addSampleEaring`: with an `earings` array in the editor, exactly one
     * sample entry with the next id is appended and the preview refreshed;
     * otherwise the editor is left as it was.
     */
    method AddSampleEaring() returns (added: bool)
      modifies this
      ensures added <==> old(content).Some? && old(content).value.earings.Some?
      ensures added ==> content == Some(Document(Some(WithSample(old(content).value.earings.value))))
      ensures added ==> preview == PreviewOf(content)
      ensures !added ==> content == old(content) && preview == old(preview)
    {
      if content.None? || content.value.earings.None? {
        return false;
      }
      var items := content.value.earings.value;
      var lastId := if |items| > 0 then MaxId(items) else 0;
      var newEaring := SampleEaring(lastId + 1);
      content := Some(Document(Some(items + [newEaring])));
      UpdatePreview();
      return true;
    }

    /**
     * `loadCurrentData`, with the fetched document as input (`None` when the
     * request failed): the fetched document, or else the built-in one, goes
     * into the editor and the preview is refreshed.
     */
    method LoadCurrentData(fetched: Option<Document>)
      modifies this
      ensures content == (if fetched.Some? then fetched else Some(DefaultDocument))
      ensures preview == PreviewOf(content)
    {
      if fetched.Some? {
        content := fetched;
      } else {
        content := Some(DefaultDocument);
      }
      UpdatePreview();
    }
  }

  /** When the bundled file cannot be fetched the editor ends up holding a valid document. */
  method LoadFallbackIsValid(editor: JsonEditor) returns (outcome: Validation)
    modifies editor
    ensures outcome == ValidJson
  {
    editor.LoadCurrentData(None);
    DefaultDocumentIsValid();
    outcome := editor.ValidateJSON();
  }
}
