/**
 * The upload panel: a chosen or dropped file is accepted when its lower-cased
 * name ends in ".gltf" or ".glb". An accepted file replaces the current
 * model: the previous object URL is revoked, the loading flag is raised and
 * the new URL and the file's own name become current. A rejected file only
 * sets the error message. Remove revokes the current URL and clears
 * everything. Object URLs are opaque tokens; which ones were created and
 * which revoked is kept as ghost state.
 */
module FileUploader {
  import opened Wrappers
  import opened UseModelStore

  datatype File = File(name: string)

  /** An object URL, as `URL.createObjectURL` hands it out. */
  datatype Url = Url(token: nat)

  const UnsupportedFormat: string := "GLTF 또는 GLB 파일만 지원됩니다."
  const ValidExtensions: seq<string> := [".gltf", ".glb"]

  /** ASCII lower-casing of one character; every other character is kept. */
  function LowerChar(c: char): char {
    if 'A' <= c <= 'Z' then (c as int + 32) as char else c
  }

  function ToLower(s: string): (r: string)
    ensures |r| == |s|
    ensures forall i :: 0 <= i < |s| ==> r[i] == LowerChar(s[i])
  {
    seq(|s|, i requires 0 <= i < |s| => LowerChar(s[i]))
  }

  /** Lower-casing works character by character, so it distributes over concatenation. */
  lemma ToLowerAppend(a: string, b: string)
    ensures ToLower(a + b) == ToLower(a) + ToLower(b)
  {
    assert forall i :: 0 <= i < |a + b| ==> ToLower(a + b)[i] == (ToLower(a) + ToLower(b))[i];
  }

  predicate EndsWith(s: string, suffix: string) {
    |suffix| <= |s| && s[|s| - |suffix|..] == suffix
  }

  /** `exts.some((ext) => name.endsWith(ext))`, element by element from the front. */
  function SomeSuffix(name: string, exts: seq<string>): (r: bool)
    ensures r <==> exists i :: 0 <= i < |exts| && EndsWith(name, exts[i])
  {
    if exts == [] then false
    else if EndsWith(name, exts[0]) then true
    else
      var found := SomeSuffix(name, exts[1..]);
      assert forall i :: 1 <= i < |exts| ==> exts[i] == exts[1..][i - 1];
      found
  }

  /** The extension check applied to a file name. */
  function IsSupported(name: string): (r: bool)
    ensures r <==> EndsWith(ToLower(name), ".gltf") || EndsWith(ToLower(name), ".glb")
  {
    var lowered := ToLower(name);
    var found := SomeSuffix(lowered, ValidExtensions);
    assert ValidExtensions[0] == ".gltf" && ValidExtensions[1] == ".glb" && |ValidExtensions| == 2;
    if found then
      var i :| 0 <= i < |ValidExtensions| && EndsWith(lowered, ValidExtensions[i]);
      found
    else
      assert !EndsWith(lowered, ValidExtensions[0]) && !EndsWith(lowered, ValidExtensions[1]);
      found
  }

  /** The check ignores case: an upper-case extension is accepted. */
  lemma UpperCaseAccepted()
    ensures IsSupported("MODEL.GLB")
    ensures IsSupported("Robot.GlTf")
  {
    assert ToLower("MODEL.GLB") == "model.glb";
    assert ToLower("Robot.GlTf") == "robot.gltf";
  }

  /** Other formats, and names that only contain an extension earlier on, are refused. */
  lemma OtherFormatsRejected()
    ensures !IsSupported("model.obj")
    ensures !IsSupported("model.glb.zip")
    ensures !IsSupported("glb")
  {
    assert ToLower("model.obj") == "model.obj";
    assert ToLower("model.glb.zip") == "model.glb.zip";
    assert ToLower("glb") == "glb";
  }

  /**
   * Any stem followed by an extension that lower-cases to ".gltf" or ".glb",
   * in whatever mix of cases, is accepted.
   */
  lemma ExtensionInAnyCaseAccepted(stem: string, ext: string)
    requires ToLower(ext) in ValidExtensions
    ensures IsSupported(stem + ext)
  {
    ToLowerAppend(stem, ext);
    var lowered := ToLower(stem + ext);
    assert lowered[|lowered| - |ext|..] == ToLower(ext);
  }

  /** One mounted `FileUploader` with the state it keeps and the model store it writes. */
  class Instance {
    var isDragging: bool
    var error: Option<string>
    var modelUrl: Option<Url>
    var modelName: Option<string>
    /** The value of the hidden file input. */
    var inputValue: string
    /** Whether the hidden file input is mounted (`inputRef.current`). */
    const inputMounted: bool
    const store: ModelStore
    /** Every object URL created for this panel, and those revoked since. */
    ghost var created: set<Url>
    ghost var revoked: set<Url>

    /**
     * A URL and a name are current together, the current URL is live, and
     * every other URL created so far has been revoked: no object URL leaks.
     */
    ghost predicate Valid()
      reads this
    {
      revoked <= created &&
      (modelUrl.Some? <==> modelName.Some?) &&
      (modelUrl.Some? ==> modelUrl.value in created && modelUrl.value !in revoked) &&
      (forall u :: u in created && u !in revoked ==> modelUrl == Some(u))
    }

    constructor(store: ModelStore, inputMounted: bool)
      ensures Valid()
      ensures this.store == store && this.inputMounted == inputMounted
      ensures !isDragging && error == None && modelUrl == None && modelName == None && inputValue == ""
      ensures created == {} && revoked == {}
    {
      this.store := store;
      this.inputMounted := inputMounted;
      isDragging := false;
      error := None;
      modelUrl := None;
      modelName := None;
      inputValue := "";
      created := {};
      revoked := {};
    }

    /**
     * `handleFile`; `url` is the URL `URL.createObjectURL` returns, which is
     * new. The error is cleared first. A refused file then only sets the
     * error message. An accepted one revokes the previous URL, if any, raises
     * the loading flag and makes the new URL and the file's own name current.
     */
    method HandleFile(file: File, url: Url)
      requires Valid() && url !in created
      modifies this`error, this`modelUrl, this`modelName, this`created, this`revoked, store`isLoading
      ensures Valid()
      ensures !IsSupported(file.name) ==>
        error == Some(UnsupportedFormat) &&
        modelUrl == old(modelUrl) && modelName == old(modelName) && store.isLoading == old(store.isLoading) &&
        created == old(created) && revoked == old(revoked)
      ensures IsSupported(file.name) ==>
        error == None && store.isLoading &&
        modelUrl == Some(url) && modelName == Some(file.name) &&
        created == old(created) + {url} &&
        revoked == old(revoked) + (if old(modelUrl).Some? then {old(modelUrl).value} else {})
    {
      error := None;
      var fileName := ToLower(file.name);
      var isValid := SomeSuffix(fileName, ValidExtensions);
      if !isValid {
        error := Some(UnsupportedFormat);
        return;
      }
      if modelUrl.Some? {
        revoked := revoked + {modelUrl.value};
      }
      store.SetIsLoading(true);
      created := created + {url};
      modelUrl := Some(url);
      modelName := Some(file.name);
    }

    /**
     * `handleDrop`: the drag flag drops; the first dropped file, if there is
     * one, goes through `HandleFile`, and with no file nothing else changes.
     */
    method HandleDrop(files: seq<File>, url: Url)
      requires Valid() && url !in created
      modifies this`isDragging, this`error, this`modelUrl, this`modelName, this`created, this`revoked, store`isLoading
      ensures Valid() && !isDragging
      ensures files == [] ==>
        error == old(error) && modelUrl == old(modelUrl) && modelName == old(modelName) &&
        store.isLoading == old(store.isLoading) && created == old(created) && revoked == old(revoked)
      ensures files != [] && !IsSupported(files[0].name) ==>
        error == Some(UnsupportedFormat) && modelUrl == old(modelUrl) && modelName == old(modelName) &&
        store.isLoading == old(store.isLoading) && created == old(created) && revoked == old(revoked)
      ensures files != [] && IsSupported(files[0].name) ==>
        error == None && store.isLoading && modelUrl == Some(url) && modelName == Some(files[0].name) &&
        created == old(created) + {url} &&
        revoked == old(revoked) + (if old(modelUrl).Some? then {old(modelUrl).value} else {})
    {
      isDragging := false;
      if |files| > 0 {
        HandleFile(files[0], url);
      }
    }

    /** `handleDragOver`: the drop zone shows the dragging state. */
    method HandleDragOver()
      modifies this`isDragging
      ensures isDragging
    {
      isDragging := true;
    }

    /** `handleDragLeave`: the dragging state ends. */
    method HandleDragLeave()
      modifies this`isDragging
      ensures !isDragging
    {
      isDragging := false;
    }

    /**
     * `handleInputChange`: the first chosen file, if there is one, goes
     * through `HandleFile`; with no file (or a null file list) nothing changes.
     */
    method HandleInputChange(files: seq<File>, url: Url)
      requires Valid() && url !in created
      modifies this`error, this`modelUrl, this`modelName, this`created, this`revoked, store`isLoading
      ensures Valid()
      ensures files == [] ==>
        error == old(error) && modelUrl == old(modelUrl) && modelName == old(modelName) &&
        store.isLoading == old(store.isLoading) && created == old(created) && revoked == old(revoked)
      ensures files != [] && !IsSupported(files[0].name) ==>
        error == Some(UnsupportedFormat) && modelUrl == old(modelUrl) && modelName == old(modelName) &&
        store.isLoading == old(store.isLoading) && created == old(created) && revoked == old(revoked)
      ensures files != [] && IsSupported(files[0].name) ==>
        error == None && store.isLoading && modelUrl == Some(url) && modelName == Some(files[0].name) &&
        created == old(created) + {url} &&
        revoked == old(revoked) + (if old(modelUrl).Some? then {old(modelUrl).value} else {})
    {
      if |files| > 0 {
        HandleFile(files[0], url);
      }
    }

    /**
     * `handleRemove`: the current URL, if any, is revoked; URL, name and
     * error are cleared and a mounted file input is emptied. Afterwards every
     * URL ever created has been revoked.
     */
    method HandleRemove()
      requires Valid()
      modifies this`modelUrl, this`modelName, this`error, this`inputValue, this`revoked
      ensures Valid()
      ensures modelUrl == None && modelName == None && error == None
      ensures revoked == old(revoked) + (if old(modelUrl).Some? then {old(modelUrl).value} else {})
      ensures revoked == created
      ensures inputMounted ==> inputValue == ""
      ensures !inputMounted ==> inputValue == old(inputValue)
    {
      if modelUrl.Some? {
        revoked := revoked + {modelUrl.value};
      }
      modelUrl := None;
      modelName := None;
      error := None;
      if inputMounted {
        inputValue := "";
      }
    }
  }
}
