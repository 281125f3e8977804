/** The storage plugin's `generate_csv`: project the result rows onto the
    column order, write them under a header to a temporary CSV file, upload
    it to a blob container and answer the blob's address, or the text
    "null" whenever there is nothing to export or a step fails.

    The container is the state that changes: a map from blob name to the
    uploaded file. The clock readings, the storage settings and whether the
    file system and the upload succeed are inputs. */
module StoragePlugin {
  import opened Common
  import opened Text

  /** The CSV file: the header row, then one record per result row. */
  datatype CsvFile = CsvFile(header: seq<string>, records: seq<seq<Value>>)

  /** The blob container the files are uploaded to. */
  class BlobContainer {
    var blobs: map<string, CsvFile>

    constructor ()
      ensures blobs == map[]
    {
      blobs := map[];
    }
  }

  /** The three storage settings (each possibly unset), and the outcome of
      the two I/O steps: writing the temporary file and uploading it. */
  datatype StorageEnv = StorageEnv(
    connectionString: Option<string>, containerName: Option<string>, accountUrl: Option<string>,
    fileWritable: bool, uploadSucceeds: bool)

  /** A setting that is set and not empty (Python truthiness). */
  predicate Present(setting: Option<string>) {
    setting.Some? && |setting.value| > 0
  }

  /** `all([connection_string, container_name, account_url])` */
  predicate ConfigComplete(env: StorageEnv) {
    Present(env.connectionString) && Present(env.containerName) && Present(env.accountUrl)
  }

  const NullUrl: string := "null"

  // ---------------------------------------------------------------------
  // Row projection
  // ---------------------------------------------------------------------

  /** `[row_data.get(col, None) for col in column_names]` */
  function ProjectRow(columns: seq<string>, row: Row): (r: seq<Value>)
    ensures |r| == |columns|
    ensures forall i :: 0 <= i < |columns| ==>
      r[i] == (if columns[i] in row then row[columns[i]] else Null)
  {
    seq(|columns|, i requires 0 <= i < |columns| => if columns[i] in row then row[columns[i]] else Null)
  }

  // ---------------------------------------------------------------------
  // File and blob naming
  // ---------------------------------------------------------------------

  /** `os.path.basename`: what follows the last '/'. */
  function Basename(path: string): (r: string)
    ensures '/' !in r
  {
    if path == [] || path[|path| - 1] == '/' then []
    else Basename(path[..|path| - 1]) + [path[|path| - 1]]
  }

  /** `f"/tmp/query_results_{timestamp}.csv"` */
  function TempPath(fileStamp: string): string {
    "/tmp/" + ("query_results_" + fileStamp + ".csv")
  }

  /** `f"{timestamp}_{file_name}"` */
  function BlobName(blobStamp: string, filePath: string): string {
    blobStamp + "_" + Basename(filePath)
  }

  /** `f"{account_url}/{container_name}/{blob_name}"` */
  function BlobUrl(accountUrl: string, containerName: string, blobName: string): string {
    accountUrl + "/" + containerName + "/" + blobName
  }

  /** The basename of text after a '/' is that text when it has no '/'. */
  lemma {:induction false} BasenameAfterSlash(dir: string, name: string)
    requires '/' !in name
    ensures Basename(dir + "/" + name) == name
    decreases |name|
  {
    var path := dir + "/" + name;
    if name == [] {
      assert path[|path| - 1] == '/';
    } else {
      var init := name[..|name| - 1];
      assert path[..|path| - 1] == dir + "/" + init;
      assert path[|path| - 1] == name[|name| - 1];
      BasenameAfterSlash(dir, init);
      assert init + [name[|name| - 1]] == name;
    }
  }

  /** A file stamp without '/' names the file `query_results_<stamp>.csv`. */
  lemma TempFileName(fileStamp: string)
    requires '/' !in fileStamp
    ensures Basename(TempPath(fileStamp)) == "query_results_" + fileStamp + ".csv"
  {
    var name := "query_results_" + fileStamp + ".csv";
    assert '/' !in name by {
      assert forall i :: 0 <= i < |name| ==> name[i] != '/' by {
        forall i | 0 <= i < |name| ensures name[i] != '/' {
          if i < 14 {
            assert name[i] == "query_results_"[i];
          } else if i < 14 + |fileStamp| {
            assert name[i] == fileStamp[i - 14];
          } else {
            assert name[i] == ".csv"[i - 14 - |fileStamp|];
          }
        }
      }
    }
    BasenameAfterSlash("/tmp", name);
    assert "/tmp/" + name == "/tmp" + "/" + name;
  }

  /** Blob names of equally long upload stamps coincide only when both the
      stamps and the file names coincide: two exports get the same blob,
      the later overwriting the earlier, exactly when they fall in the same
      second on both clock readings. */
  lemma BlobNameInjective(stamp1: string, path1: string, stamp2: string, path2: string)
    requires |stamp1| == |stamp2|
    requires BlobName(stamp1, path1) == BlobName(stamp2, path2)
    ensures stamp1 == stamp2 && Basename(path1) == Basename(path2)
  {
    var n1 := BlobName(stamp1, path1);
    assert n1[..|stamp1|] == stamp1;
    assert BlobName(stamp2, path2)[..|stamp2|] == stamp2;
    assert n1[|stamp1| + 1..] == Basename(path1);
    assert BlobName(stamp2, path2)[|stamp2| + 1..] == Basename(path2);
  }

  // ---------------------------------------------------------------------
  // generate_csv and its helpers
  // ---------------------------------------------------------------------

  /** What `_upload_to_blob_storage` answers: the address, or nothing when
      a setting is missing or the upload fails. */
  function UploadResult(filePath: string, blobStamp: string, env: StorageEnv): Option<string> {
    if !ConfigComplete(env) || !env.uploadSucceeds then None
    else Some(BlobUrl(env.accountUrl.value, env.containerName.value, BlobName(blobStamp, filePath)))
  }

  /** `_upload_to_blob_storage`: stores the file under the stamped name,
      replacing any blob of that name. */
  method UploadToBlobStorage(filePath: string, file: CsvFile, blobStamp: string, env: StorageEnv,
                             container: BlobContainer)
    returns (blobUrl: Option<string>)
    modifies container
    ensures blobUrl == UploadResult(filePath, blobStamp, env)
    ensures container.blobs ==
      if blobUrl.Some? then old(container.blobs)[BlobName(blobStamp, filePath) := file]
      else old(container.blobs)
  {
    if !ConfigComplete(env) {
      return None;
    }
    var blobName := BlobName(blobStamp, filePath);
    if !env.uploadSucceeds {
      return None;
    }
    container.blobs := container.blobs[blobName := file];
    blobUrl := Some(BlobUrl(env.accountUrl.value, env.containerName.value, blobName));
    assert blobUrl == UploadResult(filePath, blobStamp, env);
  }

  /** `_save_to_csv`: writes the header and the records, then uploads. */
  method SaveToCsv(columnNames: seq<string>, rows: seq<seq<Value>>, outputFile: string,
                   blobStamp: string, env: StorageEnv, container: BlobContainer)
    returns (blobUrl: Option<string>)
    modifies container
    ensures blobUrl == (if env.fileWritable then UploadResult(outputFile, blobStamp, env) else None)
    ensures container.blobs ==
      if blobUrl.Some? then old(container.blobs)[BlobName(blobStamp, outputFile) := CsvFile(columnNames, rows)]
      else old(container.blobs)
  {
    if !env.fileWritable {
      return None;
    }
    var file := CsvFile(columnNames, rows);
    blobUrl := UploadToBlobStorage(outputFile, file, blobStamp, env, container);
  }

  /** The projected records of a result. */
  function Records(result: ResultDoc): seq<seq<Value>>
    requires result.Doc?
  {
    var columns := result.columnNames.GetOr([]);
    var rows := result.rows.GetOr([]);
    seq(|rows|, k requires 0 <= k < |rows| => ProjectRow(columns, rows[k]))
  }

  /** What an export publishes: the blob name and the file, if anything. */
  datatype Export = Export(url: string, published: Option<(string, CsvFile)>)

  /** What `generate_csv` answers and uploads. */
  function ExportOf(result: ResultDoc, fileStamp: string, blobStamp: string, env: StorageEnv): (e: Export)
    ensures !result.Succeeded() ==> e == Export(NullUrl, None)
    ensures result.Succeeded() && result.rows.GetOr([]) == [] ==> e == Export(NullUrl, None)
    ensures !env.fileWritable || !ConfigComplete(env) || !env.uploadSucceeds ==> e == Export(NullUrl, None)
  {
    if !result.Succeeded() then Export(NullUrl, None)
    else
      var records := Records(result);
      if records == [] || !env.fileWritable then Export(NullUrl, None)
      else
        var path := TempPath(fileStamp);
        match UploadResult(path, blobStamp, env)
        case None => Export(NullUrl, None)
        case Some(url) =>
          Export(url, Some((BlobName(blobStamp, path), CsvFile(result.columnNames.GetOr([]), records))))
  }

  /** `generate_csv`: the projection loop, then the write and upload. */
  method GenerateCsv(result: ResultDoc, fileStamp: string, blobStamp: string, env: StorageEnv,
                     container: BlobContainer)
    returns (url: string)
    modifies container
    ensures url == ExportOf(result, fileStamp, blobStamp, env).url
    ensures container.blobs ==
      match ExportOf(result, fileStamp, blobStamp, env).published
      case Some(blob) => old(container.blobs)[blob.0 := blob.1]
      case None => old(container.blobs)
  {
    if !result.Succeeded() {
      return NullUrl;
    }
    var columnNames := result.columnNames.GetOr([]);
    var resultRows := result.rows.GetOr([]);
    var rows: seq<seq<Value>> := [];
    for k := 0 to |resultRows|
      invariant |rows| == k
      invariant forall j :: 0 <= j < k ==> rows[j] == ProjectRow(columnNames, resultRows[j])
    {
      rows := rows + [ProjectRow(columnNames, resultRows[k])];
    }
    assert rows == Records(result);
    if rows == [] {
      return NullUrl;
    }
    var outputFile := TempPath(fileStamp);
    var blobUrl := SaveToCsv(columnNames, rows, outputFile, blobStamp, env, container);
    url := if blobUrl.Some? then blobUrl.value else NullUrl;
  }

  /** The answer is "null" exactly when nothing was uploaded; otherwise it
      is the address of the uploaded blob, which holds the header and the
      projected records. */
  lemma NullIffNothingPublished(result: ResultDoc, fileStamp: string, blobStamp: string, env: StorageEnv)
    ensures var e := ExportOf(result, fileStamp, blobStamp, env);
      (e.url == NullUrl <==> e.published.None?)
      && (e.published.Some? ==>
            e.url == BlobUrl(env.accountUrl.value, env.containerName.value, e.published.value.0)
            && e.published.value.1 == CsvFile(result.columnNames.GetOr([]), Records(result)))
  {
    var e := ExportOf(result, fileStamp, blobStamp, env);
    if e.published.Some? {
      var a := env.accountUrl.value;
      var u := a + "/";
      assert e.url == u + env.containerName.value + "/" + e.published.value.0;
      assert e.url[|a|] == '/';
      assert forall i :: 0 <= i < |NullUrl| ==> NullUrl[i] != '/';
    }
  }

  /** Every record lists the row's values in column order, with the empty
      value for a missing column; the records keep the rows' order and
      number. */
  lemma RecordsProjectRows(result: ResultDoc, k: nat, i: nat)
    requires result.Doc? && k < |result.rows.GetOr([])| && i < |result.columnNames.GetOr([])|
    ensures var columns := result.columnNames.GetOr([]);
      var row := result.rows.GetOr([])[k];
      |Records(result)| == |result.rows.GetOr([])| && |Records(result)[k]| == |columns|
      && Records(result)[k][i] == (if columns[i] in row then row[columns[i]] else Null)
  {
  }

  /** The address of an upload: account, container, then the upload stamp
      and the temporary file's name. */
  lemma ExportAddress(result: ResultDoc, fileStamp: string, blobStamp: string, env: StorageEnv)
    requires '/' !in fileStamp
    requires ExportOf(result, fileStamp, blobStamp, env).published.Some?
    ensures ExportOf(result, fileStamp, blobStamp, env).url ==
      env.accountUrl.value + "/" + env.containerName.value + "/"
      + blobStamp + "_" + ("query_results_" + fileStamp + ".csv")
  {
    TempFileName(fileStamp);
  }
}
