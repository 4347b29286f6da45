/**
 * The admin form page: the catalog list it edits, its copy in local storage
 * under `jfEarings`, the form's fields, and the exported `{ earings: [...] }`
 * document.
 */
module AdminForm {
  import opened Options
  import opened JsBuiltins
  import opened Catalog

  /** The local-storage key the list is kept under. */
  const StorageKey: string := "jfEarings"
  /** The suffix letters of an item's five photos. */
  const Letters: seq<char> := ['a', 'b', 'c', 'd', 'e']

  /** Local storage, seen as a map from key to the list stored there. */
  type Storage = map<string, seq<Item>>

  /** The values of the form's inputs, as typed (untrimmed). */
  datatype FormFields = FormFields(
    name: string,
    price: string,
    description: string,
    material: string,
    size: string,
    weight: string,
    closure: string,
    hypoallergenic: string,
    care: string,
    category: string,
    imageBaseName: string)

  /** The form after `form.reset()`. */
  const BlankForm := FormFields("", "", "", "", "", "", "", "", "", "", "")

  /** The path of the photo with suffix `letter` for base name `base`. */
  function ImagePath(base: string, letter: char): string {
    ImageDir + base + [letter] + ".jpg"
  }

  /** The five photo paths of base name `base`, in letter order. */
  function ImagePaths(base: string): (r: seq<string>)
    ensures |r| == |Letters| == 5
    ensures forall k :: 0 <= k < 5 ==> r[k] == ImagePath(base, Letters[k])
  {
    seq(|Letters|, k requires 0 <= k < |Letters| => ImagePath(base, Letters[k]))
  }

  /** The image list `saveEaring` builds, one path pushed per letter. */
  method GenerateImages(base: string) returns (images: seq<string>)
    ensures images == ImagePaths(base)
  {
    images := [];
    for k := 0 to |Letters|
      invariant images == ImagePaths(base)[..k]
    {
      images := images + [ImagePath(base, Letters[k])];
    }
  }

  /**
   * The required fields: name, price, description, material, size and the
   * image base name must not be blank once trimmed; category (a select) must
   * not be empty. Weight, care, closure and hypoallergenic are optional.
   */
  predicate RequiredFilled(f: FormFields) {
    Trim(f.name) != "" && Trim(f.price) != "" && Trim(f.description) != "" &&
    Trim(f.material) != "" && Trim(f.size) != "" && f.category != "" &&
    Trim(f.imageBaseName) != ""
  }

  /** The entry `saveEaring` builds from the form, with id `id`. */
  function NewEaring(f: FormFields, id: int): (e: Item) {
    Item(id, Trim(f.name), Trim(f.price), Trim(f.description), Trim(f.material), Trim(f.size),
         Trim(f.weight), f.closure, f.hypoallergenic, Trim(f.care), f.category,
         3, true, ImagePaths(Trim(f.imageBaseName)))
  }

  /**
   * A saved entry has a fresh id, its photos are the five `a`..`e` paths of
   * the trimmed base name, it is in stock with popularity 3, and its
   * required text fields are not empty.
   */
  lemma NewEaringSpec(items: seq<Item>, f: FormFields)
    requires RequiredFilled(f)
    ensures var e := NewEaring(f, NextId(items));
      (forall i :: 0 <= i < |items| ==> items[i].id != e.id) &&
      |e.images| == 5 &&
      (forall k :: 0 <= k < 5 ==> e.images[k] == ImageDir + Trim(f.imageBaseName) + [Letters[k]] + ".jpg") &&
      e.popularity == 3 && e.inStock &&
      e.name != "" && e.price != "" && e.description != ""
  {
  }

  /** `firstImage.replace('assets/earings/', '').replace('a.jpg', '')`. */
  function ExtractBaseName(firstImage: string): string {
    ReplaceFirst(ReplaceFirst(firstImage, ImageDir, ""), "a.jpg", "")
  }

  /** `indexOf` finds a pattern the string starts with at position 0. */
  lemma IndexOfLeading(s: string, pat: string)
    requires OccursAt(s, pat, 0)
    ensures IndexOf(s, pat) == 0
  {
  }

  /** `replace` acts on the occurrence `indexOf` finds. */
  lemma ReplaceFirstAt(s: string, pat: string, rep: string, i: nat)
    requires IndexOf(s, pat) == i
    ensures ReplaceFirst(s, pat, rep) == s[..i] + rep + s[i + |pat|..]
  {
  }

  /**
   * In `base + "a.jpg"` the first `a.jpg` is the appended one when `base`
   * has none: one reaching past `base` would put its leading `a` on a later
   * letter of `a.jpg`, none of which is an `a`.
   */
  lemma FirstJpgIsAppended(base: string)
    requires !Contains(base, "a.jpg")
    ensures IndexOf(base + "a.jpg", "a.jpg") == |base|
  {
    var rest := base + "a.jpg";
    assert OccursAt(rest, "a.jpg", |base|);
    forall i: nat | i < |base| ensures !OccursAt(rest, "a.jpg", i) {
      if i + 5 <= |base| {
        if OccursAt(rest, "a.jpg", i) {
          assert rest[i..i + 5] == base[i..i + 5];
          assert OccursAt(base, "a.jpg", i);
        }
      } else {
        NoStraddlingJpg(base, i);
      }
    }
  }

  /** An `a.jpg` starting inside `base` cannot run on into the appended one. */
  lemma NoStraddlingJpg(base: string, i: nat)
    requires i < |base| < i + 5
    ensures !OccursAt(base + "a.jpg", "a.jpg", i)
  {
    var k := |base| - i;
    assert (base + "a.jpg")[i + k] == 'a';
    assert "a.jpg"[k] != 'a';
  }

  /** Removing the directory from a generated first photo leaves `<base>a.jpg`. */
  lemma FirstPhotoWithoutDir(base: string)
    ensures ReplaceFirst(ImagePaths(base)[0], ImageDir, "") == base + "a.jpg"
  {
    var path := ImagePaths(base)[0];
    assert path == ImageDir + (base + "a.jpg");
    assert OccursAt(path, ImageDir, 0);
    IndexOfLeading(path, ImageDir);
    ReplaceFirstAt(path, ImageDir, "", 0);
  }

  /** Reading the base name back from a generated first photo is removing the first `a.jpg` from `<base>a.jpg`. */
  lemma ExtractFromFirstPhoto(base: string)
    ensures ExtractBaseName(ImagePaths(base)[0]) == ReplaceFirst(base + "a.jpg", "a.jpg", "")
  {
    FirstPhotoWithoutDir(base);
  }

  /**
   * The base name read back from a generated first photo is the base name it
   * was generated from, as long as the base name itself does not contain
   * `a.jpg`.
   */
  lemma BaseNameRoundTrip(base: string)
    requires !Contains(base, "a.jpg")
    ensures ExtractBaseName(ImagePaths(base)[0]) == base
  {
    var rest := base + "a.jpg";
    ExtractFromFirstPhoto(base);
    FirstJpgIsAppended(base);
    ReplaceFirstAt(rest, "a.jpg", "", |base|);
    assert rest[..|base|] == base;
  }

  /** A string with `a.jpg` at position 1 but not at 0 loses the one at position 1 to `replace`. */
  lemma JpgAtOneRemoved(rest: string)
    requires !OccursAt(rest, "a.jpg", 0) && OccursAt(rest, "a.jpg", 1)
    ensures ReplaceFirst(rest, "a.jpg", "") == rest[..1] + rest[6..]
  {
    assert IndexOfFrom(rest, "a.jpg", 1) == 1;
    ReplaceFirstAt(rest, "a.jpg", "", 1);
  }

  /** In `<base>a.jpg`, an `a.jpg` right after the first letter of `base` is the one removed. */
  lemma EarlyJpgRemoved(base: string)
    requires |base| >= 6 && base[0] != 'a' && OccursAt(base, "a.jpg", 1)
    ensures ReplaceFirst(base + "a.jpg", "a.jpg", "") == base[..1] + base[6..] + "a.jpg"
  {
    var rest := base + "a.jpg";
    assert rest[1..6] == base[1..6];
    assert rest[0] == base[0];
    JpgAtOneRemoved(rest);
    assert rest[..1] == base[..1];
    assert rest[6..] == base[6..] + "a.jpg";
  }

  /** Without that proviso the base name need not survive: `xa.jpgy` comes back as `xya.jpg`. */
  lemma BaseNameRoundTripCounterexample()
    ensures ExtractBaseName(ImagePaths("xa.jpgy")[0]) != "xa.jpgy"
  {
    var base := "xa.jpgy";
    assert base[0] == 'x' && base[1..6] == "a.jpg";
    ExtractFromFirstPhoto(base);
    EarlyJpgRemoved(base);
    var r := base[..1] + base[6..] + "a.jpg";
    assert r[1] == base[6] == 'y';
  }

  /** `editEaring(id)` fills the form with entry `e`: every field, and the base name of its first photo. */
  function FormFor(e: Item, oldBaseName: string): FormFields {
    FormFields(e.name, e.price, e.description, e.material, e.size, e.weight,
               e.closure, e.hypoallergenic, e.care, e.category,
               if |e.images| > 0 then ExtractBaseName(e.images[0]) else oldBaseName)
  }

  /**
   * Editing an entry the form has just saved fills the form back with what
   * was saved: the trimmed fields and the trimmed base name, provided the
   * base name does not contain `a.jpg`.
   */
  lemma EditRecoversSavedForm(f: FormFields, id: int, oldBaseName: string)
    requires !Contains(Trim(f.imageBaseName), "a.jpg")
    ensures FormFor(NewEaring(f, id), oldBaseName) ==
      FormFields(Trim(f.name), Trim(f.price), Trim(f.description), Trim(f.material), Trim(f.size),
                 Trim(f.weight), f.closure, f.hypoallergenic, Trim(f.care), f.category,
                 Trim(f.imageBaseName))
  {
    BaseNameRoundTrip(Trim(f.imageBaseName));
  }

  /**
   * `loadEaringsFromStorage`: the list stored under `jfEarings` when there
   * is one, otherwise what the bundled `earings-data.json` yields.
   */
  function LoadEarings(storage: Storage, fetched: seq<Item>): seq<Item> {
    if StorageKey in storage then storage[StorageKey] else fetched
  }

  /** `saveEaringsToStorage`: the whole list written under `jfEarings`, other keys untouched. */
  function SaveEarings(storage: Storage, items: seq<Item>): (r: Storage)
    ensures StorageKey in r && r[StorageKey] == items
    ensures r.Keys == storage.Keys + {StorageKey}
    ensures forall k :: k in storage && k != StorageKey ==> k in r && r[k] == storage[k]
  {
    storage[StorageKey := items]
  }

  /** What is saved is what a later load returns, whatever the bundled file holds. */
  lemma SaveThenLoad(storage: Storage, items: seq<Item>, fetched: seq<Item>)
    ensures LoadEarings(SaveEarings(storage, items), fetched) == items
  {
  }

  /** The exported document `{ earings: earings }`. */
  function ExportDocument(items: seq<Item>): (d: Document)
    ensures d.earings == Some(items)
  {
    Document(Some(items))
  }

  /** The admin form page's state. */
  class AdminFormPage {
    var earings: seq<Item>
    var storage: Storage
    var form: FormFields
    var jsonOutput: Option<Document>

    /** The in-memory list and the stored copy never disagree. */
    ghost predicate Persisted()
      reads this
    {
      StorageKey in storage ==> storage[StorageKey] == earings
    }

    /** `initAdminForm`: the list comes from storage, else from the bundled file. */
    constructor (storage: Storage, fetched: seq<Item>, form: FormFields)
      ensures earings == LoadEarings(storage, fetched)
      ensures this.storage == storage && this.form == form && jsonOutput == None
      ensures Persisted()
    {
      earings := LoadEarings(storage, fetched);
      this.storage := storage;
      this.form := form;
      jsonOutput := None;
    }

    /** `updateJSONOutput`. */
    method UpdateJSONOutput()
      modifies this`jsonOutput
      ensures jsonOutput == Some(ExportDocument(earings))
    {
      jsonOutput := Some(ExportDocument(earings));
    }

    /** `saveEaringsToStorage(earings)`: store the list and refresh the export. */
    method SaveEaringsToStorage()
      modifies this`storage, this`jsonOutput
      ensures storage == SaveEarings(old(storage), earings)
      ensures jsonOutput == Some(ExportDocument(earings))
      ensures Persisted()
    {
      storage := storage[StorageKey := earings];
      UpdateJSONOutput();
    }

    /**
     * `saveEaring`: when a required field is blank nothing changes; otherwise
     * exactly one new entry, with the next id, is appended after the others,
     * the list is stored, the export refreshed and the form reset.
     */
    method SaveEaring() returns (saved: bool)
      requires Persisted()
      modifies this
      ensures saved == RequiredFilled(old(form))
      ensures saved ==> earings == old(earings) + [NewEaring(old(form), NextId(old(earings)))]
      ensures saved ==> storage == SaveEarings(old(storage), earings) && form == BlankForm &&
                        jsonOutput == Some(ExportDocument(earings))
      ensures !saved ==> earings == old(earings) && storage == old(storage) &&
                         form == old(form) && jsonOutput == old(jsonOutput)
      ensures old(UniqueIds(earings)) ==> UniqueIds(earings)
      ensures Persisted()
    {
      var name := Trim(form.name);
      var price := Trim(form.price);
      var description := Trim(form.description);
      var material := Trim(form.material);
      var size := Trim(form.size);
      var weight := Trim(form.weight);
      var closure := form.closure;
      var hypoallergenic := form.hypoallergenic;
      var care := Trim(form.care);
      var category := form.category;
      var baseName := Trim(form.imageBaseName);

      if name == "" || price == "" || description == "" || material == "" || size == "" ||
         category == "" || baseName == "" {
        assert !RequiredFilled(old(form));
        return false;
      }
      assert RequiredFilled(form);

      var images := GenerateImages(baseName);
      var id := if |earings| > 0 then MaxId(earings) + 1 else 1;
      var newEaring := Item(id, name, price, description, material, size, weight, closure,
                            hypoallergenic, care, category, 3, true, images);
      assert id == NextId(earings);
      assert newEaring == NewEaring(form, id);
      AddEaring(newEaring);
      form := BlankForm;
      saved := true;
    }

    /** The success path of `saveEaring`: push the entry, store the list, refresh the export. */
    method AddEaring(newEaring: Item)
      requires newEaring.id == NextId(earings)
      modifies this`earings, this`storage, this`jsonOutput
      ensures earings == old(earings) + [newEaring]
      ensures storage == SaveEarings(old(storage), earings)
      ensures jsonOutput == Some(ExportDocument(earings))
      ensures old(UniqueIds(earings)) ==> UniqueIds(earings)
      ensures Persisted()
    {
      if UniqueIds(earings) {
        AppendNextIdKeepsUnique(earings, newEaring);
      }
      earings := earings + [newEaring];
      SaveEaringsToStorage();
    }

    /**
     * `deleteEaring(id)`: after a cancelled confirmation nothing changes;
     * otherwise every entry with that id is removed, the rest keep their
     * order, and the list is stored and exported.
     */
    method DeleteEaring(id: int, confirmed: bool)
      requires Persisted()
      modifies this
      ensures !confirmed ==> earings == old(earings) && storage == old(storage) && jsonOutput == old(jsonOutput)
      ensures confirmed ==> earings == RemoveId(old(earings), id) &&
                            storage == SaveEarings(old(storage), earings) &&
                            jsonOutput == Some(ExportDocument(earings))
      ensures form == old(form)
      ensures old(UniqueIds(earings)) ==> UniqueIds(earings)
      ensures Persisted()
    {
      if !confirmed {
        return;
      }
      ghost var before := earings;
      earings := RemoveId(earings, id);
      if UniqueIds(before) {
        RemoveIdKeepsUnique(before, id);
      }
      SaveEaringsToStorage();
    }

    /**
     * `editEaring(id)`: fills the form from the first entry with that id and
     * changes nothing else; an unknown id leaves even the form alone.
     */
    method EditEaring(id: int)
      modifies this`form
      ensures FindById(earings, id).None? ==> form == old(form)
      ensures FindById(earings, id).Some? ==> form == FormFor(FindById(earings, id).value, old(form).imageBaseName)
    {
      var found := FindById(earings, id);
      if found.None? {
        return;
      }
      var e := found.value;
      var baseName := form.imageBaseName;
      if |e.images| > 0 {
        baseName := ExtractBaseName(e.images[0]);
      }
      form := FormFields(e.name, e.price, e.description, e.material, e.size, e.weight,
                         e.closure, e.hypoallergenic, e.care, e.category, baseName);
    }

    /** `downloadJSON`: the file name and the document `{ earings: earings }`. */
    method DownloadJSON() returns (download: Download)
      ensures download.fileName == DataFileName
      ensures download.doc.earings == Some(earings)
    {
      download := Download(DataFileName, ExportDocument(earings));
    }
  }

  /**
   * "Editing" an entry and saving adds a second entry with a fresh id: the
   * edited one stays as it was.
   */
  method EditThenSave(page: AdminFormPage, id: int) returns (saved: bool)
    requires page.Persisted()
    modifies page
    ensures saved ==> |page.earings| == |old(page.earings)| + 1 &&
                      page.earings[..|old(page.earings)|] == old(page.earings) &&
                      forall i :: 0 <= i < |old(page.earings)| ==> page.earings[|old(page.earings)|].id != old(page.earings)[i].id
    ensures !saved ==> page.earings == old(page.earings)
  {
    page.EditEaring(id);
    saved := page.SaveEaring();
  }
}
