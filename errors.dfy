/** The errors the User model raises, and the result of an operation that can raise one.
    Every error of the wishlist and cart operations carries an HTTP status code and a
    message; the API layer answers with that code. */
module Errors {

  /** An error raised by a model method: the status code and the message it carries. */
  datatype CustomError = CustomError(code: nat, message: string)

  /** Either the operation succeeded with a value, or it raised an error. */
  datatype Result<T> = Ok(value: T) | Err(error: CustomError)

  // The errors raised by the wishlist operations.
  const InvalidId := CustomError(400, "Invalid ID")
  const WishlistProductNotFound := CustomError(400, "The product provided was not found")
  const AlreadyInWishlist := CustomError(409, "Product already exists in the whishlist")
  const NotInWishlist := CustomError(400, "Product does not exist in your whishlist")

  // The errors raised by the cart operations (InvalidId is shared with the wishlist).
  const NegativeQuantity := CustomError(400, "Quantity cannot be negative")
  const CartProductNotFound := CustomError(400, "Product not found")
}
