/** Outcomes shared by the credential registry, the token check and the ledger.
    Every HTTPException the service raises becomes one `Error` value. */
module Results {

  datatype Option<T> = None | Some(value: T)

  /** The failure kinds a caller of the service can observe. */
  datatype Error =
    | DuplicateUsername   // register: "Username already exists" (400)
    | InvalidCredentials  // login: "Incorrect username or password" (400)
    | Unauthorized        // get_current_user: "Invalid or expired token" (401)
    | DuplicateAccount    // create_account: "Account already exists" (400)
    | NotFound            // read_account / transfer_funds: missing account (404)
    | InsufficientFunds   // transfer_funds: "Insufficient balance" (400)
    | InvalidBalance      // request schema: balance must be >= 0 (422)
    | InvalidAmount       // request schema: amount must be > 0 (422)

  datatype Result<T> = Ok(value: T) | Err(error: Error)
}
