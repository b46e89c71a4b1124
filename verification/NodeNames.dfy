/** The name under which a node is shown. */
module NodeNames {
  import opened GoText

  const MAX_NAME_LENGTH := 255

  /** normalizeNodeExt */
  function NormalizeExt(ext: string): string {
    TrimDot(TrimSpace(ext))
  }

  /** nodeVisibleName */
  function VisibleName(name: string, ext: string, file: bool): string {
    if file && NormalizeExt(ext) != "" then TrimSpace(name) + "." + NormalizeExt(ext) else TrimSpace(name)
  }

  /** The expression of the unique index uq_nodes_live_sibling_visible_name, on the stored columns as they are. */
  function StoredName(name: string, ext: string, file: bool): string {
    if file && ext != "" then name + "." + ext else name
  }

  /** The stored extension is in the form the checks compare. */
  predicate CanonicalExt(ext: string) {
    NormalizeExt(ext) == ext
  }

  /** The extension as a file is created or renamed with it. */
  function StoredExt(raw: string): string {
    TrimSpace(NormalizeExt(raw))
  }

  ghost predicate Storable(ext: string) {
    exists raw :: StoredExt(raw) == ext
  }

  lemma DottedIsStored(ext: string)
    requires Trimmed(ext)
    ensures StoredExt("." + ext) == ext
  {
    var raw := "." + ext;
    assert Trimmed(raw) && raw[1..] == ext;
    hide TrimSpace;
  }

  /** Every trimmed text can be stored. */
  lemma StorableExactly(ext: string)
    ensures Storable(ext) <==> Trimmed(ext)
  {
    hide NormalizeExt, Trimmed, TrimSpace;
    if Trimmed(ext) {
      DottedIsStored(ext);
    }
  }

  /** Of those, the ones that are not canonical start with a dot: only one of several is taken off. */
  lemma StorableOdd(ext: string)
    requires Storable(ext)
    ensures CanonicalExt(ext) <==> ext == "" || ext[0] != '.'
  {
    StorableExactly(ext);
    hide TrimSpace, Trimmed;
  }
}
