/** The application's error values and the result types the service layer
    returns in place of throwing them.

    The service throws plain objects whose only field the handlers look at is
    `name`; an error is therefore modelled by its name alone. */
module Errors {

  datatype AppError = AppError(name: string)

  /** What `notFoundError()` throws. */
  const NotFoundError := AppError("NotFoundError")

  /** What `paymentRequiredError()` throws. */
  const PaymentRequiredError := AppError("PaymentRequiredError")

  /** Either a value, or the error that would have been thrown instead. */
  datatype Result<+T> = Ok(value: T) | Err(error: AppError)

  /** The outcome of a check that returns nothing when it passes. */
  datatype Outcome = Pass | Fail(error: AppError)
}
