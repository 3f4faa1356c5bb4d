/**
 * The mobile note editor's fallback input (React-Native
 * components/NoteEditor.tsx): the component state that follows the shown note.
 */
module FallbackEditor {
  import opened Content
  import opened PlainText

  /**
   * The fallback editor's state: the id of the note it shows (`noteIdRef`)
   * and the text in the input (`fallbackText`).
   */
  class PlainTextEditor {
    var noteIdRef: string
    var fallbackText: string

    /** Mounting with a note shows that note's plain text. */
    constructor (noteId: string, content: Doc)
      ensures noteIdRef == noteId && fallbackText == JsonToPlainText(content)
    {
      noteIdRef := noteId;
      fallbackText := JsonToPlainText(content);
    }

    /**
     * The effect on a new note prop: a note with another id replaces the text
     * with its own plain text; the same id leaves the text being edited alone.
     */
    method NoteArrived(noteId: string, content: Doc)
      modifies `noteIdRef, `fallbackText
      ensures noteIdRef == noteId
      ensures noteId != old(noteIdRef) ==> fallbackText == JsonToPlainText(content)
      ensures noteId == old(noteIdRef) ==> fallbackText == old(fallbackText)
    {
      if noteId != noteIdRef {
        noteIdRef := noteId;
        fallbackText := JsonToPlainText(content);
      }
    }

    /**
     * `onChangeText`: the input shows exactly what was typed, and the save to
     * schedule is the shown note's id with the typed text as a document; the
     * tracked note id is left alone.
     */
    method ChangeText(noteId: string, value: string) returns (saveId: string, saveContent: Doc)
      modifies `fallbackText
      ensures fallbackText == value
      ensures saveId == noteId && saveContent == PlainTextToJson(value)
    {
      fallbackText := value;
      saveId := noteId;
      saveContent := PlainTextToJson(value);
    }
  }
}
