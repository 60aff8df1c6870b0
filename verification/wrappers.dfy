/** A value that may be missing: what a Prisma lookup returns when no row
    matches, or what a request field is when the client did not send it. */
module Wrappers {

  datatype Option<+T> = None | Some(value: T)
}
