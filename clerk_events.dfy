/** The parts of a Clerk webhook event that the two webhook handlers read. Absent optional
    objects (`public_metadata`, `verification`) are absent Options; an absent address list is
    the empty sequence. */
module ClerkEvents {
  import opened JsPrims

  datatype EmailAddress = EmailAddress(id: string, email_address: string)

  datatype UserData = UserData(
    id: string,
    email_addresses: seq<EmailAddress>,
    primary_email_address_id: string,
    first_name: Option<string>,
    last_name: Option<string>,
    metadata_voter_id: Option<string>,
    metadata_role: Option<string>,
    verification_status: Option<string>,
    created_at: string)

  datatype Event = Event(kind: string, data: UserData)

  /** The svix headers of a request; each may be missing. */
  datatype SvixHeaders = SvixHeaders(svixId: Option<string>, svixTimestamp: Option<string>, svixSignature: Option<string>)
}
