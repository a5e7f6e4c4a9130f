/** The records the user controller exchanges with its callers and with the store. */
module Models {
  import opened Wrappers

  /** One registration form, as the controller builds it from a request. The same record is
      what the store keeps and returns when the users are listed. */
  datatype UserInput = UserInput(
    name: string,
    email: string,
    phone: string,
    transactionId: string,
    collegeName: string,
    yearOfStudy: string,
    branch: string,
    isDualBooted: bool,
    referralCode: string,
    paymentImg: string)

  /** The reply of `CreateUser`. `data` is the store-assigned id, absent unless the user was
      created; `error` is the text of a store error, empty otherwise. */
  datatype Response = Response(message: string, success: bool, data: Option<string>, error: string)

  /** One leaderboard row: a referral code and how many registrations carry it. */
  datatype ReferralScore = ReferralScore(referralCode: string, score: int)
}
