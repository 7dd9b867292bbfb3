/** The rows of the hosted tables that the handlers build or read. Only the
    columns the modelled code touches are kept; ids are opaque strings. */
module Content {
  import opened Remote

  /** `file_type` of a row of `files`. */
  datatype FileType = Image | Video | Pdf | GenericFile

  /** A row inserted into `files`. */
  datatype FileRow = FileRow(sectionId: string, title: string, fileUrl: string, fileType: FileType)

  /** A row of `files` as listed on the admin page. */
  datatype ListedFile = ListedFile(id: string, title: string, fileUrl: string)

  /** A row of `module_sections`. */
  datatype SectionRow = SectionRow(moduleId: string, name: string, orderIndex: nat)

  /** A row of `module_sections` as read back (`select('*')`). */
  datatype StoredSection = StoredSection(id: string, moduleId: string, name: string, orderIndex: nat)

  /** A row of `modules`; `description` may be null. */
  datatype ModuleRow = ModuleRow(id: string, name: string, groupId: string, description: Option<string>)

  /** The module form: what is inserted or written back on update. */
  datatype ModuleForm = ModuleForm(name: string, groupId: string, description: string)

  /** A row of `announcements`; the two URLs may be null. */
  datatype AnnouncementRow = AnnouncementRow(
    levelId: string, title: string, content: string,
    audioUrl: Option<string>, imageUrl: Option<string>)

  /** The singleton row of `settings`. A null `timetable_url` is the empty
      string here: the timetable link only tests it for truthiness, but a
      settings save writes `""` back where the page would write back null. */
  datatype SiteSettings = SiteSettings(id: Option<string>, siteTitle: string, timetableUrl: string)

  /** A nullable string column used in a condition: null and '' are both falsy. */
  predicate Truthy(s: Option<string>) {
    s.Some? && s.value != ""
  }
}
