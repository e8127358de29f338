/** The .NET exceptions that escape the modelled operations. */
module Errors {

  datatype Exception =
    | ArgumentNull(parameter: string)      // ArgumentNullException
    | NullReference                        // NullReferenceException
    | KeyNotFound(message: string)         // KeyNotFoundException
    | NotSupported(message: string)        // NotSupportedException
    | InvalidOperation(message: string)    // InvalidOperationException
    | KeyVaultError(message: string)       // KeyVaultErrorException
    | Format                               // FormatException from int.Parse
    | Overflow                             // OverflowException from int.Parse
}
