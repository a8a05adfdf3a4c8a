/** The Drive and Forms data the script reads, as values. A folder tree is
    finite, so the walk over it terminates. */
module Forms {
  import opened Wrappers

  /** One item of a response: the question's title and the answer, `None`
      when the platform gives `null` or `undefined`. */
  datatype Item = Item(title: string, answer: Option<string>)

  /** One submitted response. `respondentEmail` is `""` when the form does not
      collect it (the script's `getRespondentEmail() || ""`). */
  datatype Response = Response(respondentEmail: string, items: seq<Item>)

  /** A form file found in a folder. `openable` is false when opening the form
      or reading its responses throws. */
  datatype Source = Source(id: string, name: string, openable: bool, responses: seq<Response>)

  /** A Drive folder: its forms and its subfolders, each in iterator order. */
  datatype Folder = Folder(name: string, forms: seq<Source>, subfolders: seq<Folder>)
}
