/** The records the storage service hands to the dashboard. */
module StorageTypes {
  import opened Wrappers

  datatype ItemKind = Folder | File

  /** One entry of a folder listing (`FolderItem`). */
  datatype FolderItem = FolderItem(
    kind: ItemKind,
    name: string,
    path: string,
    uuid: Option<string>,
    size: Option<int>,
    createdAt: Option<string>)

  /** A file the user picked in the browser's file input. */
  datatype LocalFile = LocalFile(name: string, size: nat, contentType: string)
}
