/** What a section editor's submit does, shared by the three list editors
    (work experience, education, skills). */
module Editing {
  import Store

  /** The result of pressing submit. `Invalid`: the schema rejected the draft
      and `handleSubmit` never called `onSubmit`. `IndexOutOfRange`: edit mode
      points past the end of the collection (the entry was deleted while being
      edited), so reading `collection[editingIndex].id` throws and nothing is
      written. `Committed`: the store and the editor after the write. */
  datatype Commit<E> =
    | Invalid
    | IndexOutOfRange
    | Committed(state: Store.State, editor: E)
}
