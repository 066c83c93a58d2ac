/** The diagnostic log of the webhook pipeline. */
module Debug {
  import opened Store

  /** `logWebhook`: appends one record holding `stage` and `data` as given and
      the current time; nothing is returned and no other table changes. */
  method LogWebhook(db: Database, stage: string, data: LogData, now: int)
    requires db.webhookLogs.Valid()
    modifies db.webhookLogs
    ensures db.webhookLogs.Valid()
    ensures |db.webhookLogs.docs| == |old(db.webhookLogs.docs)| + 1
    ensures db.webhookLogs.docs[..|old(db.webhookLogs.docs)|] == old(db.webhookLogs.docs)
    ensures db.webhookLogs.docs[|old(db.webhookLogs.docs)|].fields == WebhookLog(stage, data, now)
  {
    var _ := db.webhookLogs.Insert(WebhookLog(stage, data, now));
  }
}
