/**
  The error answers of the backend: an HTTP status code and the JSON `error`
  message, spelled exactly as the handlers send them.
 */
module Http {

  datatype HttpError = HttpError(status: nat, message: string)

  // Guards
  const TokenRequired := HttpError(401, "Authentication token is required.")
  const InvalidToken := HttpError(401, "Invalid or expired token.")
  const AdminOnly := HttpError(403, "Only admin users can perform this action.")

  // Accounts
  const SignupFieldsRequired := HttpError(400, "Name, email, and password are required.")
  const PasswordTooShort := HttpError(400, "Password must be at least 6 characters.")
  const EmailExists := HttpError(409, "Email already exists.")
  const SigninFieldsRequired := HttpError(400, "Email and password are required.")
  const InvalidCredentials := HttpError(401, "Invalid email or password.")
  const UserNotFound := HttpError(404, "User not found.")

  // Catalog
  const ImageRequired := HttpError(400, "Product image is required.")
  const AppNotFound := HttpError(404, "App not found.")

  // Orders
  const CustomerRequired := HttpError(400, "Customer name, email, phone, and location are required.")
  const CartRequired := HttpError(400, "Cart items are required.")
  const NoValidProducts := HttpError(400, "No valid products found in cart.")
  const InvalidStatus := HttpError(400, "Invalid status value.")
  const OrderNotFound := HttpError(404, "Order not found.")

  /** A rejected upload answers 400 with the upload error's message, or a fixed text when it has none. */
  function UploadFailed(message: string): (e: HttpError)
    ensures e.status == 400 && e.message != ""
    ensures message != "" ==> e.message == message
    ensures message == "" ==> e.message == "Image upload failed."
  {
    HttpError(400, if message != "" then message else "Image upload failed.")
  }
}
