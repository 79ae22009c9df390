/** The exceptions the modelled code can throw, as values. A method that
    returns Thrown(f) has made every change it made before the throw. */
module Errors {

  datatype Failure =
    /** ArrayIndexOutOfBoundsException: a texture unit outside units[]. */
    | UnitOutOfRange
    /** NullPointerException: a null host buffer was dereferenced. */
    | NullBuffer
    /** RuntimeException(log): a shader stage did not compile. */
    | CompileFailed(log: string)
    /** RuntimeException("fbo not complete"). */
    | FramebufferIncomplete
    /** A matrix array does not fit in the scratch float buffer. */
    | ScratchOverflow
    /** IllegalArgumentException: a required argument was null. */
    | IllegalArgument

  datatype Outcome = Done | Thrown(failure: Failure)
}
