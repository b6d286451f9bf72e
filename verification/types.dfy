/** The records the modelled operations read and write, with the fields those operations use.
    Optional boolean flags of the source are plain booleans here: an absent flag reads as false. */
module Types {
  import opened Wrappers

  datatype Role = Admin | RegularUser

  /** A note draft saved from the preview. */
  datatype NoteDraft = NoteDraft(id: string, title: string, content: string, personaName: string,
                                 createdAt: int, isDeleted: bool)

  /** A note that was published, with its QR code. */
  datatype PublishedRecord = PublishedRecord(id: string, title: string, coverImage: string,
                                             imageUrls: seq<string>, qrCodeUrl: string,
                                             publishedAt: int, isDeleted: bool)

  /** The `cos` section of the system configuration. */
  datatype CosSection = CosSection(secretId: string, secretKey: string, bucket: string, region: string)

  /** The `publish` section of the system configuration; an absent optional URL is "". */
  datatype PublishSection = PublishSection(apiKey: string, targetUrl: string, proxyUrl: string)

  /** A user as the session and the admin panel see it. `lastLoginAt` is absent for a user who
      never logged in. */
  datatype User = User(id: string, username: string, role: Role, inviteCode: string,
                       totalQuota: int, quotaRemaining: int, isSuspended: bool, isDeleted: bool,
                       lastLoginAt: Option<int>, totalOnlineSeconds: int, interactionCount: int)

  /** A writing persona; only its tone and prompt are read by the modelled code. */
  datatype Persona = Persona(tone: string, keywords: seq<string>, emojiDensity: string, structure: string,
                             writerPersonaPrompt: string)

  /** A note saved as source material. */
  datatype SocialNote = SocialNote(noteId: string, title: string, desc: string, addedAt: int, isDeleted: bool)

  datatype FileKind = ImageFile | OtherFile

  /** A file attached to a project: an image or another document. */
  datatype AttachedFile = AttachedFile(id: string, name: string, kind: FileKind, mimeType: string, data: string,
                                       isUrl: bool, isDeleted: bool)

  /** A project with the fields the modelled operations read and write. */
  datatype Project = Project(id: string, name: string, updatedAt: int, persona: Option<Persona>,
                             contextText: string, attachedFiles: seq<AttachedFile>,
                             socialNotes: seq<SocialNote>, generatedContent: string,
                             drafts: seq<NoteDraft>, publishedHistory: seq<PublishedRecord>,
                             wordCountLimit: int, isDeleted: bool)
}
