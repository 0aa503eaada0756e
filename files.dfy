/** The browser's `File` objects as the application sees them. */
module Files {

  /** A selected or dropped file: its name, and an opaque handle standing for
      the identity of the browser object (two files may share a name). */
  datatype File = File(name: string, handle: nat)
}
