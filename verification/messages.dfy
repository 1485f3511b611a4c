/** The texts the application sends back: error messages and response types. */
module Messages {
  const Empty := "Field cannot be empty"
  const Name := "Invalid field. Should only contain characters and be between 2-30 characters"
  const Age := "Invalid field. Should be an interger between 10 and 100"
  const Phone := "Invalid phone number. Should contain 6-20 digits without spaces. May include country code"
  const Date := "Invalid date"

  const TypeError := "error"
  const TypeSuccess := "success"

  const InternalErrorPrefix := "Internal server error: "
}
