/**
 * The field-selector and expansion lists every request carries. Their contents are
 * the server's business; the model only needs them as fixed strings.
 */
module Fields {
  const TweetFields := "article,attachments,author_id,card_uri,context_annotations,conversation_id,created_at,display_text_range,edit_controls,edit_history_tweet_ids,entities,geo,id,in_reply_to_user_id,lang,media_metadata,note_tweet,possibly_sensitive,public_metrics,referenced_tweets,reply_settings,scopes,source,text,withheld"
  const Expansions := "article.cover_media,article.media_entities,attachments.media_keys,attachments.media_source_tweet,attachments.poll_ids,author_id,edit_history_tweet_ids,entities.mentions.username,geo.place_id,in_reply_to_user_id,entities.note.mentions.username,referenced_tweets.id,referenced_tweets.id.author_id"
  const UserFields := "affiliation,connection_status,created_at,description,entities,id,location,most_recent_tweet_id,name,pinned_tweet_id,profile_banner_url,profile_image_url,protected,public_metrics,receives_your_dm,subscription_type,url,username,verified,verified_type,withheld"
  const MediaFields := "media_key,duration_ms,height,preview_image_url,type,url,width,public_metrics,alt_text,variants"
  const PollFields := "duration_minutes,end_datetime,id,options,voting_status"
  const PlaceFields := "contained_within,country,country_code,full_name,geo,id,name,place_type"
  const UserExpansions := "affiliation.user_id,most_recent_tweet_id,pinned_tweet_id"

  /** The six selectors of every tweet-returning request. */
  const TweetSelectors: map<string, string> := map[
    "tweet.fields" := TweetFields,
    "expansions" := Expansions,
    "user.fields" := UserFields,
    "media.fields" := MediaFields,
    "poll.fields" := PollFields,
    "place.fields" := PlaceFields]
}
