/** Results and errors of the staking program.
    `Error` collects every way an instruction can end without success:
    the program's own custom codes, the runtime's generic program errors,
    the errors of the token and associated-token programs it invokes, and
    the aborts (Rust panics) of the program itself. */
module Results {

  datatype Option<+T> = None | Some(value: T)

  /** Why the program aborts (a Rust panic), rather than returning an error. */
  datatype Abort =
    | DecodeFailed       // the `unwrap` of the instruction decode
    | CreatorsMissing    // `metadata.data.creators.unwrap()`
    | NoFirstCreator     // `creators.first().unwrap()`
    | SubtractOverflow   // `now - timestamp` below zero in u64
    | DivideByZero       // elapsed / reward_period with reward_period == 0
    | MultiplyOverflow   // periods * price above u64::MAX

  /** Failures of the token program's transfer and close_account. */
  datatype TokenError =
    | UninitializedAccount   // a holding account that does not exist
    | InsufficientFunds
    | Overflow               // the destination amount would exceed u64::MAX
    | NonNativeHasBalance    // closing a holding account that is not empty

  datatype Error =
    | Custom(code: nat)             // ProgramError::Custom(code) of this program
    | NotEnoughAccountKeys          // fewer accounts than the handler reads
    | InvalidArgument               // the rent account is not the rent sysvar
    | IncorrectProgramId            // a token instruction built for the wrong program
    | PrivilegeEscalation           // an invocation that needs the funder to sign, when it did not
    | InvalidSeeds                  // a holding account not at its associated address
    | AccountAlreadyInUse           // creating a holding account that exists
    | MetadataUnreadable            // the metadata account holds no metadata
    | Token(token: TokenError)
    | Panic(abort: Abort)

  /** `ProgramResult` and the fallible steps inside a handler. */
  datatype Result<+T> = Ok(value: T) | Err(error: Error) {

    predicate IsFailure() {
      Err?
    }

    function PropagateFailure<U>(): Result<U>
      requires Err?
    {
      Err(error)
    }

    function Extract(): T
      requires Ok?
    {
      value
    }

    /** Forgets the success value: the `ProgramResult` a handler returns. */
    function Status(): Result<()> {
      match this
      case Ok(_) => Ok(())
      case Err(e) => Err(e)
    }
  }
}
