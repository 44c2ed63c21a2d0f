/** The record every extraction strategy produces and every other utility consumes. */
module Contacts {

  /** A contact: four strings, each "" when the strategy found nothing for it. */
  datatype Contact = Contact(name: string, phone: string, email: string, address: string)

  /** The contact with every field empty. */
  const Blank := Contact("", "", "", "")
}
