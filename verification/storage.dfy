/** The browser's `localStorage` entry under the key 'currentUser', as the
    components see it after `getItem` and `JSON.parse`. */
module Storage {

  /** The persisted identity. A field missing from the stored JSON reads as "".
      The login and start-up readers treat an absent field and "" alike; the
      header's role label does not (see the README). */
  datatype StoredRecord = StoredRecord(
    id: string,
    name: string,
    email: string,
    password: string,
    role: string,
    phone: string,
    createdAt: string)

  /** `Absent`: nothing stored, or a value every reader treats as nothing: the
      empty string (falsy before parsing) or a JSON value that parses to `0`,
      `false` or `""` (no field of it matches or is a role, and the header
      tests it as falsy). `Parsed`: a value that parses to anything else but
      `null`, with its fields read as in `StoredRecord`. `Malformed`: a value
      on which `JSON.parse` throws, or `null`, whose field access throws inside
      the login handler's and the start-up check's `try` and which the header
      tests as falsy. */
  datatype StoredValue = Absent | Parsed(record: StoredRecord) | Malformed

  /** `localStorage.setItem('currentUser', JSON.stringify(record))`. */
  function Write(record: StoredRecord): StoredValue {
    Parsed(record)
  }

  /** `localStorage.removeItem('currentUser')`. */
  function Remove(): StoredValue {
    Absent
  }
}
