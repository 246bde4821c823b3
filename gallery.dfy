/** The photo and video page `client/src/pages/gallery.tsx`: counting an item's
    reactions, the upload form's checks, putting an uploaded item at the top,
    and merging the server's copy of an item after a reaction. The server's
    answers are parameters. */
module Gallery {
  import opened Common
  import opened Schema
  import opened Storage

  /** The uploader's public fields. */
  datatype Poster = Poster(id: string, name: string, username: string, profilePicture: Option<string>)

  /** An item as `/api/gallery` lists it: the row, its uploader and its
      reactions. */
  datatype ItemData = ItemData(row: GalleryItem, user: Poster, reactions: seq<Reaction>)

  /** An item as the page holds it; `userReaction` is never sent by the server
      and so survives every merge. */
  datatype ItemView = ItemView(row: GalleryItem, user: Poster, reactions: seq<Reaction>, userReaction: Option<Reaction>)

  /** `getReactionCount(reactions, type)`. */
  function ReactionCount(item: ItemView, kind: string): (n: nat)
    ensures n <= |item.reactions|
    ensures n == 0 <==> forall i | 0 <= i < |item.reactions| :: item.reactions[i].kind != kind
  {
    CountKind(item.reactions, kind)
  }

  /** `{ ...item, ...result }`: every field the server sent replaces the page's. */
  function Spread(item: ItemView, result: ItemData): (r: ItemView)
    ensures r.row == result.row && r.user == result.user && r.reactions == result.reactions
    ensures r.userReaction == item.userReaction
  {
    ItemView(result.row, result.user, result.reactions, item.userReaction)
  }

  /** `prev.map(item => item.id === galleryId ? { ...item, ...result } : item)`. */
  function MergeById(items: seq<ItemView>, galleryId: string, result: ItemData): (r: seq<ItemView>)
    ensures |r| == |items|
    ensures forall i | 0 <= i < |items| && items[i].row.id != galleryId :: r[i] == items[i]
    ensures forall i | 0 <= i < |items| && items[i].row.id == galleryId :: r[i] == Spread(items[i], result)
  {
    seq(|items|, i requires 0 <= i < |items| => if items[i].row.id == galleryId then Spread(items[i], result) else items[i])
  }

  /** Merging the same answer twice changes nothing more. */
  lemma MergeIdempotent(items: seq<ItemView>, galleryId: string, result: ItemData)
    requires result.row.id == galleryId
    ensures MergeById(MergeById(items, galleryId, result), galleryId, result) == MergeById(items, galleryId, result)
  {
  }

  /** When the answer is the item that was reacted to, the list keeps its ids
      in the same order and the merged item shows the server's counts. */
  lemma MergeKeepsIds(items: seq<ItemView>, galleryId: string, result: ItemData, kind: string)
    requires result.row.id == galleryId
    ensures forall i | 0 <= i < |items| :: MergeById(items, galleryId, result)[i].row.id == items[i].row.id
    ensures forall i | 0 <= i < |items| && items[i].row.id == galleryId ::
      ReactionCount(MergeById(items, galleryId, result)[i], kind) == CountKind(result.reactions, kind)
  {
  }

  /** A fresh item from the server, with no reaction of the user yet. */
  function Fresh(data: ItemData): ItemView
  {
    ItemView(data.row, data.user, data.reactions, None)
  }

  /** The form posted to `/api/gallery/upload`. */
  datatype UploadForm = UploadForm(file: LocalFile, title: string, description: string)

  /** What the upload request came back with: the created item, or an error
      with the server's message if it sent one. */
  datatype UploadAnswer = Uploaded(data: ItemData) | UploadFailed(message: Option<string>)

  /** What `GET /api/gallery` came back with: the items, or a failure with the
      thrown error's message (`Failed to fetch gallery items` for a refusal). */
  datatype FetchAnswer = Fetched(items: seq<ItemData>) | FetchFailed(message: Option<string>)

  /** What the reaction request came back with. */
  datatype ReactAnswer = Reacted(data: ItemData) | ReactFailed

  const NoFile := Toast("Error", "Please select a file to upload", true)
  const TooLarge := Toast("File too large", "Please select a file smaller than 10MB", true)
  const UploadDone := Toast("Success", "Photo/video uploaded successfully!", false)
  const ReactError := Toast("Error", "Failed to react", true)

  /** The state of the page: the items shown, the upload dialog and its form,
      the `uploading` flag and the toasts shown. */
  class GalleryPage {
    var galleryItems: seq<ItemView>
    var showUploadModal: bool
    var title: string
    var description: string
    var file: Option<LocalFile>
    var uploading: bool
    var toasts: seq<Toast>

    /** The page after `fetchGalleryItems`: the server's items, none of them
        with a reaction of the user yet, or an empty list and an error toast
        when the fetch fails. */
    constructor(answer: FetchAnswer)
      ensures answer.Fetched? ==>
        && |galleryItems| == |answer.items|
        && (forall i | 0 <= i < |answer.items| :: galleryItems[i] == Fresh(answer.items[i]))
        && toasts == []
      ensures answer.FetchFailed? ==>
        galleryItems == [] && toasts == [Toast("Error", ErrorText(answer.message, "Failed to load gallery"), true)]
      ensures !showUploadModal && title == "" && description == "" && file.None? && !uploading
    {
      match answer {
        case Fetched(items) =>
          galleryItems := seq(|items|, i requires 0 <= i < |items| => Fresh(items[i]));
          toasts := [];
        case FetchFailed(message) =>
          galleryItems := [];
          toasts := [Toast("Error", ErrorText(message, "Failed to load gallery"), true)];
      }
      showUploadModal := false;
      title, description, file := "", "", None;
      uploading := false;
    }

    /** `handleFileUpload`: without a file, or with one over 10 MB, a toast is
        shown and nothing is sent. Otherwise the form is sent; a created item
        goes to the top of the list and the dialog closes with an empty form,
        and a failure shows the server's message (or "Upload failed"). The flag
        is down again at the end. */
    method HandleFileUpload(answer: UploadAnswer) returns (sent: Option<UploadForm>)
      modifies this
      ensures old(file).None? ==>
        && sent.None? && toasts == old(toasts) + [NoFile]
        && galleryItems == old(galleryItems) && file == old(file) && showUploadModal == old(showUploadModal)
      ensures old(file).Some? && old(file).value.size > MaxFileBytes ==>
        && sent.None? && toasts == old(toasts) + [TooLarge]
        && galleryItems == old(galleryItems) && file == old(file) && showUploadModal == old(showUploadModal)
      ensures old(file).Some? && old(file).value.size <= MaxFileBytes ==>
        && sent == Some(UploadForm(old(file).value, old(title), old(description)))
        && (answer.Uploaded? ==>
              && galleryItems == [Fresh(answer.data)] + old(galleryItems)
              && !showUploadModal && title == "" && description == "" && file.None?
              && toasts == old(toasts) + [UploadDone])
        && (answer.UploadFailed? ==>
              && galleryItems == old(galleryItems) && showUploadModal == old(showUploadModal)
              && title == old(title) && description == old(description) && file == old(file)
              && toasts == old(toasts) + [Toast("Upload failed", ErrorText(answer.message, "Upload failed"), true)])
      ensures sent.None? ==> uploading == old(uploading) && title == old(title) && description == old(description)
      ensures sent.Some? ==> !uploading
    {
      if file.None? {
        toasts := toasts + [NoFile];
        return None;
      }
      if file.value.size > MaxFileBytes {
        toasts := toasts + [TooLarge];
        return None;
      }
      uploading := true;
      sent := Some(UploadForm(file.value, title, description));
      match answer {
        case Uploaded(data) =>
          galleryItems := [Fresh(data)] + galleryItems;
          showUploadModal := false;
          title, description, file := "", "", None;
          toasts := toasts + [UploadDone];
        case UploadFailed(message) =>
          toasts := toasts + [Toast("Upload failed", ErrorText(message, "Upload failed"), true)];
      }
      uploading := false;
    }

    /** `handleReaction`: the server's copy of the item replaces the fields of
        the item with that id and of no other; a failure shows a toast. */
    method HandleReaction(galleryId: string, answer: ReactAnswer)
      modifies this
      ensures answer.Reacted? ==>
        galleryItems == MergeById(old(galleryItems), galleryId, answer.data) && toasts == old(toasts)
      ensures answer.ReactFailed? ==>
        galleryItems == old(galleryItems) && toasts == old(toasts) + [ReactError]
      ensures |galleryItems| == |old(galleryItems)|
      ensures showUploadModal == old(showUploadModal) && file == old(file) && uploading == old(uploading)
      ensures title == old(title) && description == old(description)
    {
      match answer
      case Reacted(data) =>
        galleryItems := MergeById(galleryItems, galleryId, data);
      case ReactFailed =>
        toasts := toasts + [ReactError];
    }
  }

  /** The item at the top after an upload is the one the server created, with
      no reaction of the user, and every earlier item moves down one place. */
  lemma UploadedItemFirst(items: seq<ItemView>, data: ItemData)
    ensures ([Fresh(data)] + items)[0].row == data.row
    ensures ([Fresh(data)] + items)[0].userReaction.None?
    ensures forall i | 0 <= i < |items| :: ([Fresh(data)] + items)[i + 1] == items[i]
  {
  }
}
