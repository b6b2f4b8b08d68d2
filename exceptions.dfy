/** The exceptions the core throws, as error values carrying their message. */
module Exceptions {

  datatype Error =
    | InvalidArgument(message: string)    // InvalidArgumentException
    | ResourceNotFound(message: string)   // ResourceNotFoundException
    | Runtime(message: string)            // RuntimeException
    | PreloadWrite(message: string)       // PreloadWriteException
    | UnexpectedValue(path: string)       // a directory iterator opened on a path that is not a directory
    | Type(message: string)               // TypeError: a value of the wrong type passed under strict_types
    | Call(message: string)               // Error: a call to a method the class does not define
}
