/** The response record that the inspection form saves on the device and that
    the sync screen later sends to the remote `form_responses` table, and the
    local key-value store that holds the list of them. */
module Records {
  import opened Common

  /** The two values the app writes into a record's `status`. */
  datatype Status = Draft | Synced

  /** A value of the answers map: the text of an answer, or the list of storage
      paths kept under the `<questionId>_photos` key. */
  datatype Answer = Text(text: string) | Paths(paths: seq<string>)

  /** A photo reference: its storage path and an optional "lat, long" string. */
  datatype Photo = Photo(path: string, coordinates: Option<string>)

  datatype Record = Record(
    id: string,
    formId: string,
    answers: map<string, Answer>,
    photos: map<string, seq<Photo>>,
    status: Status,
    createdAt: string,
    formTitle: string)

  /** What is inserted remotely: a record without its local `id`. */
  datatype Payload = Payload(
    formId: string,
    answers: map<string, Answer>,
    photos: map<string, seq<Photo>>,
    status: Status,
    createdAt: string,
    formTitle: string)

  /** The row sent for a record: every field but `id`, with `status` forced to `Synced`. */
  function ToPayload(r: Record): (p: Payload)
    ensures p.status == Synced
    ensures p.formId == r.formId && p.answers == r.answers && p.photos == r.photos
    ensures p.createdAt == r.createdAt && p.formTitle == r.formTitle
  {
    Payload(r.formId, r.answers, r.photos, Synced, r.createdAt, r.formTitle)
  }

  /** Reading the `form_responses` key: a missing value reads as the empty list. */
  function LoadAll(stored: Option<seq<Record>>): (rs: seq<Record>)
    ensures stored.None? ==> rs == []
    ensures stored.Some? ==> rs == stored.value
  {
    match stored
    case None => []
    case Some(rs) => rs
  }

  /** Records that differ only in their local id and status give the same row:
      neither reaches the remote table. */
  lemma PayloadIgnoresIdAndStatus(r: Record, id: string, status: Status)
    ensures ToPayload(r.(id := id, status := status)) == ToPayload(r)
  {
  }

  /** The `form_responses` key of the device's key-value store. The list is
      parsed and serialized whole; `writes` counts the whole-list writes. */
  class Storage {
    var value: Option<seq<Record>>
    var writes: nat

    constructor (initial: Option<seq<Record>>)
      ensures value == initial && writes == 0
    {
      value := initial;
      writes := 0;
    }

    method GetItem() returns (v: Option<seq<Record>>)
      ensures v == value
    {
      v := value;
    }

    method SetItem(rs: seq<Record>)
      modifies this
      ensures value == Some(rs) && writes == old(writes) + 1
    {
      value := Some(rs);
      writes := writes + 1;
    }
  }
}
