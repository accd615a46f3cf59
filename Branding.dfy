/** The fixed branding constants of the client (js/branding.js). */
module Branding {

  /** Sent in the CallOptions header of every request. */
  const ClientId: string := "JBoss Fuse"

  /** The full name and label of the managed Connected App. */
  const ConnectedAppName: string := "FuseApp"

  const ContactEmail: string := "support@redhat.com"

  const AppDescription: string :=
    "Salesforce Connected App used for integration with RedHat Fuse middleware."

  const InfoUrl: string := "https://www.redhat.com/en/technologies/jboss-middleware/fuse"
}
