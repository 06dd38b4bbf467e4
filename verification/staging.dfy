/**
 * Colours and images on the product form. Four sequences are kept side by
 * side and edited independently: the colours (each with its stored image
 * URLs), one slot of staged files per colour, the product's stored image
 * URLs and the product's staged files.
 */
module Staging {
  import opened Wrappers
  import opened Http
  import opened Seqs
  import opened ProductDraft

  /** Append one empty colour and one empty file slot. */
  function AddColor(f: Form): (f': Form)
    ensures f'.draft.colors == f.draft.colors + [EmptyColor()]
    ensures f'.colorImageFiles == f.colorImageFiles + [[]]
    ensures f' == f.(draft := f.draft.(colors := f'.draft.colors), colorImageFiles := f'.colorImageFiles)
  {
    Form(f.draft.(colors := f.draft.colors + [EmptyColor()]), f.imageFiles, f.colorImageFiles + [[]])
  }

  /**
   * Remove colour `i` and file slot `i` (each only if it exists). A colour
   * list left empty is replaced by a single empty colour, while the slot list
   * may stay empty, so the two lists need not have equal length.
   */
  function RemoveColor(f: Form, i: nat): (f': Form)
    ensures |f'.draft.colors| >= 1
    ensures i < |f.draft.colors| && |f.draft.colors| > 1 ==> f'.draft.colors == RemoveAt(f.draft.colors, i)
    ensures i < |f.draft.colors| && |f.draft.colors| == 1 ==> f'.draft.colors == [EmptyColor()]
    ensures f'.colorImageFiles == RemoveAt(f.colorImageFiles, i)
    ensures f' == f.(draft := f.draft.(colors := f'.draft.colors), colorImageFiles := f'.colorImageFiles)
  {
    var rest := RemoveAt(f.draft.colors, i);
    var colors := if |rest| > 0 then rest else [EmptyColor()];
    Form(f.draft.(colors := colors), f.imageFiles, RemoveAt(f.colorImageFiles, i))
  }

  /** `handleColorChange(i, 'name', v)`: only colour `i`'s name changes. */
  function RenameColor(f: Form, i: nat, name: string): (f': Form)
    requires i < |f.draft.colors|
    ensures |f'.draft.colors| == |f.draft.colors|
    ensures f'.draft.colors[i] == f.draft.colors[i].(name := name)
    ensures forall k :: 0 <= k < |f.draft.colors| && k != i ==> f'.draft.colors[k] == f.draft.colors[k]
    ensures f' == f.(draft := f.draft.(colors := f'.draft.colors))
  {
    var colors := f.draft.colors[i := f.draft.colors[i].(name := name)];
    f.(draft := f.draft.(colors := colors))
  }

  /**
   * `removeImage(i, isFile)`: drop entry `i` of the staged files when
   * `isFile`, of the stored image URLs otherwise; the other list is untouched.
   */
  function RemoveImage(f: Form, i: nat, isFile: bool): (f': Form)
    ensures isFile ==> f'.imageFiles == ExceptIndex(f.imageFiles, i) && f'.draft == f.draft
    ensures !isFile ==> f'.draft.images == ExceptIndex(f.draft.images, i) && f'.imageFiles == f.imageFiles
    ensures f'.colorImageFiles == f.colorImageFiles
    ensures f' == f.(draft := f.draft.(images := f'.draft.images), imageFiles := f'.imageFiles)
  {
    RemoveAtIsExceptIndex(f.imageFiles, i);
    RemoveAtIsExceptIndex(f.draft.images, i);
    if isFile then f.(imageFiles := RemoveAt(f.imageFiles, i))
    else f.(draft := f.draft.(images := RemoveAt(f.draft.images, i)))
  }

  /** Newly picked product images are appended after the files already staged. */
  function AddImageFiles(f: Form, picked: Option<seq<LocalFile>>): (f': Form)
    ensures picked.Some? ==> f'.imageFiles == f.imageFiles + picked.value
    ensures picked.None? ==> f' == f
    ensures f' == f.(imageFiles := f'.imageFiles)
  {
    if picked.Some? then f.(imageFiles := f.imageFiles + picked.value) else f
  }

  /** Slot `k`, reading a missing slot as empty (`prev[k] || []`). */
  function Slot(slots: seq<seq<LocalFile>>, k: nat): seq<LocalFile> {
    if k < |slots| then slots[k] else []
  }

  /**
   * Store `files` in slot `k`, first growing the list with empty slots when
   * `k` is past its end (JavaScript leaves holes there, which every reader
   * of the list treats as empty).
   */
  function PutSlot(slots: seq<seq<LocalFile>>, k: nat, files: seq<LocalFile>): (r: seq<seq<LocalFile>>)
    ensures |r| == if k < |slots| then |slots| else k + 1
    ensures r[k] == files
    ensures forall j :: 0 <= j < |r| && j != k ==> r[j] == Slot(slots, j)
  {
    if k < |slots| then slots[k := files]
    else slots + seq(k - |slots|, _ => []) + [files]
  }

  /** Files picked for colour `k` are appended after that colour's staged files; other slots are untouched. */
  function AddColorImageFiles(f: Form, k: nat, picked: Option<seq<LocalFile>>): (f': Form)
    ensures picked.None? ==> f' == f
    ensures |f'.colorImageFiles| >= |f.colorImageFiles|
    ensures picked.Some? ==> k < |f'.colorImageFiles| && f'.colorImageFiles[k] == Slot(f.colorImageFiles, k) + picked.value
    ensures forall j :: 0 <= j < |f.colorImageFiles| && j != k ==> f'.colorImageFiles[j] == f.colorImageFiles[j]
    ensures f' == f.(colorImageFiles := f'.colorImageFiles)
  {
    if picked.None? then f
    else f.(colorImageFiles := PutSlot(f.colorImageFiles, k, Slot(f.colorImageFiles, k) + picked.value))
  }

  /** Drop staged file `i` of colour `k`; no other slot changes. */
  function RemoveColorImageFile(f: Form, k: nat, i: nat): (f': Form)
    requires k < |f.colorImageFiles|
    ensures |f'.colorImageFiles| == |f.colorImageFiles|
    ensures f'.colorImageFiles[k] == ExceptIndex(f.colorImageFiles[k], i)
    ensures forall j :: 0 <= j < |f.colorImageFiles| && j != k ==> f'.colorImageFiles[j] == f.colorImageFiles[j]
    ensures f' == f.(colorImageFiles := f'.colorImageFiles)
  {
    RemoveAtIsExceptIndex(f.colorImageFiles[k], i);
    f.(colorImageFiles := f.colorImageFiles[k := RemoveAt(f.colorImageFiles[k], i)])
  }

  /** Drop stored image URL `i` of colour `k`; its name and every other colour stay as they were. */
  function RemoveColorImageUrl(f: Form, k: nat, i: nat): (f': Form)
    requires k < |f.draft.colors|
    ensures |f'.draft.colors| == |f.draft.colors|
    ensures f'.draft.colors[k].name == f.draft.colors[k].name
    ensures f'.draft.colors[k].images == RemoveAt(f.draft.colors[k].images, i)
    ensures forall j :: 0 <= j < |f.draft.colors| && j != k ==> f'.draft.colors[j] == f.draft.colors[j]
    ensures f' == f.(draft := f.draft.(colors := f'.draft.colors))
  {
    var c := f.draft.colors[k];
    f.(draft := f.draft.(colors := f.draft.colors[k := c.(images := RemoveAt(c.images, i))]))
  }

  /**
   * What the form can keep: at most one colour more than there are file
   * slots. (Equal lengths do not hold: a fresh form has one colour and no
   * slot.)
   */
  predicate SlotsCoverColors(f: Form) {
    |f.draft.colors| <= |f.colorImageFiles| + 1
  }

  /** A fresh form keeps the slot bound, but its colour and slot lists differ in length. */
  lemma InitialSlots()
    ensures SlotsCoverColors(InitialForm())
    ensures |InitialForm().draft.colors| != |InitialForm().colorImageFiles|
  {
  }

  /**
   * Picking files for a colour the form shows never has to grow the slot list
   * past its end with padding: the slot exists or is the next one.
   */
  lemma PickForShownColorNeedsNoPadding(f: Form, k: nat, picked: seq<LocalFile>)
    requires SlotsCoverColors(f) && k < |f.draft.colors|
    ensures k <= |f.colorImageFiles|
    ensures |AddColorImageFiles(f, k, Some(picked)).colorImageFiles| == if k < |f.colorImageFiles| then |f.colorImageFiles| else k + 1
  {
  }
}
